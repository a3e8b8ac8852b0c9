/** The decision rules of the Input component: whether the field is in error, which
    class fragments it hands to `cn` and in which order, whether a label and a
    message line appear and what they show. The string `cn` builds from the fragments
    is not modelled; the model stops at the ordered list of arguments `cn` keeps. */
module Input {
  import opened Js

  datatype Variant = Default | Filled | Outline

  datatype Size = Sm | Md | Lg

  /** The props the component reads; every one may be omitted. */
  datatype Props = Props(
    variant: Option<Variant>,
    size: Option<Size>,
    error: Option<bool>,
    labelText: Option<string>, // the `label` prop (`label` is a keyword here)
    helperText: Option<string>,
    errorText: Option<string>,
    className: Option<string>,
    id: Option<string>)

  /** One argument of a `cn` call: a string, `false` (from `x && s` with `x` false)
      or `undefined`. */
  datatype ClassArg = Str(s: string) | False | Undefined

  /** The four fragments every input carries first. */
  const BaseFragments: seq<string> := [BaseLayout, BasePlaceholder, BaseFocus, BaseDisabled]

  const BaseLayout: string := "w-full rounded-md border transition-colors"
  const BasePlaceholder: string := "placeholder:text-[var(--color-text-tertiary)]"
  const BaseFocus: string := "focus:outline-none focus:ring-2 focus:ring-offset-0"
  const BaseDisabled: string := "disabled:opacity-50 disabled:cursor-not-allowed"

  /** The fragment that replaces the variant's while the field is in error. */
  const ErrorFragment: string :=
    "border-[var(--color-error)] bg-[var(--color-error-bg)] focus:border-[var(--color-error)] focus:ring-[var(--color-error)]"

  const LabelClass: string := "block text-sm font-medium text-[var(--color-text-secondary)] mb-1"
  const MessageBase: string := "mt-1 text-sm"
  const ErrorColor: string := "text-[var(--color-error)]"
  const TertiaryColor: string := "text-[var(--color-text-tertiary)]"

  const DefaultClass: string :=
    "border-[var(--color-border)] bg-[var(--color-bg-primary)] text-[var(--color-text-primary)] focus:border-[var(--color-primary)] focus:ring-[var(--color-primary)]"
  const FilledClass: string :=
    "border-transparent bg-[var(--color-bg-tertiary)] text-[var(--color-text-primary)] focus:border-[var(--color-primary)] focus:ring-[var(--color-primary)]"
  const OutlineClass: string :=
    "border-2 border-[var(--color-border)] bg-transparent text-[var(--color-text-primary)] focus:border-[var(--color-primary)] focus:ring-[var(--color-primary)]"

  const SmClass: string := "px-3 py-1.5 text-sm"
  const MdClass: string := "px-4 py-2 text-base"
  const LgClass: string := "px-4 py-3 text-lg"

  /** The `inputVariants` table. */
  function VariantClass(v: Variant): (r: string)
    ensures r != "" && r != ErrorFragment && r !in BaseFragments
    ensures forall s: Size :: r != SizeClass(s)
  {
    match v
    case Default => DefaultClass
    case Filled => FilledClass
    case Outline => OutlineClass
  }

  /** The `inputSizes` table. */
  function SizeClass(s: Size): (r: string)
    ensures r != "" && r != ErrorFragment && r !in BaseFragments
  {
    match s
    case Sm => SmClass
    case Md => MdClass
    case Lg => LgClass
  }

  /** The variant in effect: `default` when omitted. */
  function VariantOf(p: Props): (v: Variant)
    ensures p.variant.Some? ==> v == p.variant.value
    ensures p.variant.None? ==> v == Default
  {
    p.variant.GetOr(Default)
  }

  /** The size in effect: `md` when omitted. */
  function SizeOf(p: Props): (s: Size)
    ensures p.size.Some? ==> s == p.size.value
    ensures p.size.None? ==> s == Md
  {
    p.size.GetOr(Md)
  }

  /** `error || !!errorText`, with `error` defaulting to `false`. */
  function HasError(p: Props): (b: bool)
    ensures b <==> p.error == Some(true) || (p.errorText.Some? && p.errorText.value != "")
  {
    p.error.GetOr(false) || Truthy(p.errorText)
  }

  /** The four base fragments as `cn` arguments. */
  const BaseArgs: seq<ClassArg> := [Str(BaseLayout), Str(BasePlaceholder), Str(BaseFocus), Str(BaseDisabled)]

  /** The eight arguments of the input's `cn` call, in source order. */
  function ClassArgs(p: Props): (args: seq<ClassArg>)
    ensures |args| == 8 && args[..4] == BaseArgs
    ensures args[4].Str? <==> HasError(p)
    ensures args[5].Str? <==> !HasError(p)
    ensures HasError(p) ==> args[4] == Str(ErrorFragment) && args[5] == False
    ensures !HasError(p) ==> args[4] == False && args[5] == Str(VariantClass(VariantOf(p)))
    ensures args[6] == Str(SizeClass(SizeOf(p)))
    ensures p.className.Some? ==> args[7] == Str(p.className.value)
    ensures p.className.None? ==> args[7] == Undefined
  {
    var hasError := HasError(p);
    BaseArgs
    + [if hasError then Str(ErrorFragment) else False,
       if !hasError then Str(VariantClass(VariantOf(p))) else False,
       Str(SizeClass(SizeOf(p))),
       match p.className case Some(c) => Str(c) case None => Undefined]
  }

  /** The arguments of a `cn` call that are not falsy, in order. */
  function Fragments(args: seq<ClassArg>): (r: seq<string>)
    ensures |r| <= |args|
    ensures forall i :: 0 <= i < |r| ==> r[i] != ""
  {
    if args == [] then []
    else
      var rest := Fragments(args[1..]);
      match args[0]
      case Str(s) => if s != "" then [s] + rest else rest
      case _ => rest
  }

  /** Keeping the non-falsy arguments distributes over concatenation. */
  lemma {:induction false} FragmentsAppend(a: seq<ClassArg>, b: seq<ClassArg>)
    ensures Fragments(a + b) == Fragments(a) + Fragments(b)
  {
    if a != [] {
      assert (a + b)[0] == a[0];
      assert (a + b)[1..] == a[1..] + b;
      FragmentsAppend(a[1..], b);
    } else {
      assert a + b == b;
    }
  }

  /** A single argument keeps exactly its non-empty string. */
  lemma FragmentsOne(x: ClassArg)
    ensures Fragments([x]) == if x.Str? && x.s != "" then [x.s] else []
  {
  }

  /** Arguments that are all non-empty strings are all kept. */
  lemma {:induction false} FragmentsOfStrings(ss: seq<string>)
    requires forall i :: 0 <= i < |ss| ==> ss[i] != ""
    ensures Fragments(seq(|ss|, i requires 0 <= i < |ss| => Str(ss[i]))) == ss
  {
    if ss != [] {
      var args := seq(|ss|, i requires 0 <= i < |ss| => Str(ss[i]));
      assert args[1..] == seq(|ss[1..]|, i requires 0 <= i < |ss[1..]| => Str(ss[1..][i]));
      FragmentsOfStrings(ss[1..]);
      assert ss == [ss[0]] + ss[1..];
    }
  }

  /** The fragments of the input element, after `cn` dropped the falsy ones. */
  function InputClasses(p: Props): (r: seq<string>)
    ensures r ==
      BaseFragments
      + [if HasError(p) then ErrorFragment else VariantClass(VariantOf(p))]
      + [SizeClass(SizeOf(p))]
      + (if Truthy(p.className) then [p.className.value] else [])
  {
    InputClassOrder(p);
    Fragments(ClassArgs(p))
  }

  /** The order of the input's class fragments: the four base fragments, then the
      error fragment or the variant's, then the size's, then the caller's
      `className` when it is not empty. */
  lemma InputClassOrder(p: Props)
    ensures Fragments(ClassArgs(p)) ==
      BaseFragments
      + [if HasError(p) then ErrorFragment else VariantClass(VariantOf(p))]
      + [SizeClass(SizeOf(p))]
      + (if Truthy(p.className) then [p.className.value] else [])
  {
    var tail := ClassArgs(p)[4..];
    assert ClassArgs(p) == BaseArgs + tail;
    FragmentsAppend(BaseArgs, tail);
    BaseArgsKept();
    FragmentsOfFour(tail[0], tail[1], tail[2], tail[3]);
    assert tail == [tail[0], tail[1], tail[2], tail[3]];
    FragmentTextsNonEmpty(VariantOf(p), SizeOf(p));
    FragmentsOne(tail[0]);
    FragmentsOne(tail[1]);
    FragmentsOne(tail[2]);
    FragmentsOne(tail[3]);
  }

  /** None of the fragments the component chooses itself is empty. */
  lemma FragmentTextsNonEmpty(v: Variant, s: Size)
    ensures ErrorFragment != "" && VariantClass(v) != "" && SizeClass(s) != ""
    ensures forall i :: 0 <= i < |BaseFragments| ==> BaseFragments[i] != ""
  {
  }

  /** The base arguments are all kept, in order. */
  lemma BaseArgsKept()
    ensures Fragments(BaseArgs) == BaseFragments
  {
    assert BaseArgs == seq(4, i requires 0 <= i < 4 => Str(BaseFragments[i]));
    FragmentTextsNonEmpty(Default, Md);
    FragmentsOfStrings(BaseFragments);
  }

  /** Four arguments keep what each keeps on its own. */
  lemma FragmentsOfFour(a: ClassArg, b: ClassArg, c: ClassArg, d: ClassArg)
    ensures Fragments([a, b, c, d]) == Fragments([a]) + Fragments([b]) + Fragments([c]) + Fragments([d])
  {
    assert [a, b, c, d] == [a] + [b] + [c] + [d];
    FragmentsAppend([a] + [b] + [c], [d]);
    FragmentsAppend([a] + [b], [c]);
    FragmentsAppend([a], [b]);
  }

  /** The fragments the component chooses itself (all but the caller's `className`)
      hold the error fragment exactly when the field is in error, and a variant
      fragment exactly when it is not, and then only the selected variant's. */
  lemma ErrorReplacesVariant(p: Props)
    ensures |InputClasses(p)| >= 6
    ensures ErrorFragment in InputClasses(p)[..6] <==> HasError(p)
    ensures forall v: Variant :: VariantClass(v) in InputClasses(p)[..6] <==> !HasError(p) && v == VariantOf(p)
  {
    InputClassOrder(p);
    var own := InputClasses(p)[..6];
    assert own == BaseFragments + [if HasError(p) then ErrorFragment else VariantClass(VariantOf(p)), SizeClass(SizeOf(p))];
    forall v: Variant ensures VariantClass(v) in own <==> !HasError(p) && v == VariantOf(p) {
      VariantClassesDistinct(v);
    }
    VariantClassesDistinct(VariantOf(p));
  }

  /** The variant fragments differ from each other and from every other fragment
      the component chooses itself. */
  lemma VariantClassesDistinct(v: Variant)
    ensures forall w: Variant :: VariantClass(w) == VariantClass(v) ==> w == v
    ensures VariantClass(v) != ErrorFragment
    ensures VariantClass(v) !in BaseFragments
    ensures forall s: Size :: VariantClass(v) != SizeClass(s)
    ensures ErrorFragment !in BaseFragments
    ensures forall s: Size :: ErrorFragment != SizeClass(s)
  {
  }

  /** An omitted prop behaves exactly as its documented default. */
  lemma DefaultsApplied(p: Props)
    requires p.variant.None? && p.size.None? && p.error.None?
    ensures InputClasses(p) ==
      InputClasses(p.(variant := Some(Default), size := Some(Md), error := Some(false)))
  {
  }

  /** A `<label>` with its text, its `htmlFor` and its class. */
  datatype Label = Label(text: string, htmlFor: Option<string>, className: string)

  /** A message line with its text and the fragments of its `cn` call. */
  datatype Message = Message(text: string, classes: seq<string>)

  /** What the component renders, as far as the decision rules go. */
  datatype Rendered = Rendered(labelElement: Option<Label>, inputId: Option<string>, inputClasses: seq<string>, message: Option<Message>)

  /** The message line: present when `helperText || errorText` is truthy, showing
      `errorText || helperText`, coloured by the error state. */
  function MessageLine(p: Props): (m: Option<Message>)
    ensures m.Some? <==> Truthy(p.helperText) || Truthy(p.errorText)
    ensures m.Some? ==> m.value.text != ""
    ensures m.Some? && Truthy(p.errorText) ==> m.value.text == p.errorText.value
    ensures m.Some? && !Truthy(p.errorText) ==> m.value.text == p.helperText.value
    ensures m.Some? ==> m.value.classes == [MessageBase, if HasError(p) then ErrorColor else TertiaryColor]
  {
    if Truthy(p.helperText) || Truthy(p.errorText) then
      var text := if Truthy(p.errorText) then p.errorText.value else p.helperText.value;
      var colour := if HasError(p) then ErrorColor else TertiaryColor;
      FragmentsOfStrings([MessageBase, colour]);
      assert [Str(MessageBase), Str(colour)] == seq(2, i requires 0 <= i < 2 => Str([MessageBase, colour][i]));
      Some(Message(text, Fragments([Str(MessageBase), Str(colour)])))
    else
      None
  }

  /** The component: an optional label tied to the input's `id`, the input with its
      class fragments, an optional message line. */
  function Render(p: Props): (r: Rendered)
    ensures r.labelElement.Some? <==> Truthy(p.labelText)
    ensures r.labelElement.Some? ==> r.labelElement.value.text == p.labelText.value && r.labelElement.value.htmlFor == r.inputId
    ensures r.inputId == p.id
    ensures r.inputClasses == InputClasses(p)
    ensures r.message == MessageLine(p)
  {
    var labelElement := if Truthy(p.labelText) then Some(Label(p.labelText.value, p.id, LabelClass)) else None;
    Rendered(labelElement, p.id, InputClasses(p), MessageLine(p))
  }

  /** An error text alone puts the field in error: the input carries the error
      fragment, the message shows that text in the error colour, whatever
      `helperText` is. */
  lemma ErrorTextShowsError(p: Props)
    requires Truthy(p.errorText)
    ensures ErrorFragment in InputClasses(p)
    ensures MessageLine(p) == Some(Message(p.errorText.value, [MessageBase, ErrorColor]))
  {
    ErrorReplacesVariant(p);
    assert InputClasses(p) == InputClasses(p)[..6] + InputClasses(p)[6..];
  }

  /** With `error` set but no error text, a helper text is still shown, and in the
      error colour; with neither text there is no message line although the input
      is styled as in error. */
  lemma ErrorFlagWithoutText(p: Props)
    requires p.error == Some(true) && !Truthy(p.errorText)
    ensures Truthy(p.helperText) ==> MessageLine(p) == Some(Message(p.helperText.value, [MessageBase, ErrorColor]))
    ensures !Truthy(p.helperText) ==> MessageLine(p).None? && ErrorFragment in InputClasses(p)
  {
    ErrorReplacesVariant(p);
    assert InputClasses(p) == InputClasses(p)[..6] + InputClasses(p)[6..];
  }
}
