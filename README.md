# mini-design-system: theme provider and input rules in Dafny

This project models the two parts of the `@mini-design-system/ui` React library
that hold real logic:

- **The theme provider** (`packages/ui/src/theme/ThemeProvider.tsx`). It holds one
  state cell, `theme`. A mount effect adopts a stored preference. A sync effect
  mirrors every theme onto `localStorage["theme"]` and onto the `dark` class of the
  document root. The module also covers the `toggleTheme` updater, the raw
  `setTheme` setter and the `useTheme` guard. Module `Theme` models the provider as
  class `ThemeProvider`.
  - Its fields are `theme`, `storage` (the persisted key-value store) and
    `rootClasses` (the root element's class list).
  - Its methods are `Sync`, `Mount`, `SetTheme` and `ToggleTheme`.
  - Each method's contract gives the complete new state in terms of pure functions:
    `Loaded`, `Toggled` and `SyncedRoot`.
  - The lemmas prove what the source promises about those functions.
- **The Input component's decision rules** (`packages/ui/src/components/Input.tsx`).
  These decide when the field is in error and which class fragments reach `cn`, in
  which order. They also decide when a label and a message line appear and what
  they show. Module `Input` models these as pure functions over `Props` and proves
  lemmas about them.

Module `Js` gives the JavaScript notions both modules share:
- `Option` stands for a value that may be `undefined` or `null`;
- `Result` stands for a call that may throw;
- `Truthy` is the truthiness of an optional string.

Details of the code that the model keeps:

- `THEME_MODES` has no `as const`, so `Theme` is `string`. `setTheme` and
  `defaultTheme` accept any string, and only the mount effect checks for
  `light`/`dark`. The model keeps `theme: string`: see `ThemeProvider.SetTheme`,
  `ConsumerSetsTheme` and `ToggleTwiceFromOther`.
- The sync effect sets the root marker first (`ThemeProvider.tsx:35`), then
  persists (line 37). `ThemeProvider.Sync` does the same.
- In the Input props, the `label` prop is the field `labelText`, because `label` is
  a keyword in Dafny.

Browser state is passed in, not read from the browser:
- The initial store contents and the initial root class list are parameters of the
  provider's constructor.
- `localStorage.getItem` is modelled by `GetItem`, which returns `None` for a
  missing key.
- React's rendering, effect scheduling and context lookup are modelled as explicit
  method calls in the order React performs them. `useTheme` takes the list of
  enclosing providers as its argument.

## Model

| member | source | states |
|---|---|---|
| `Theme.GetItem` | packages/ui/src/theme/ThemeProvider.tsx:27 | `localStorage.getItem`: it returns the stored value when the key is present and `null` (`None`) when it is absent |
| `Theme.Loaded` | packages/ui/src/theme/ThemeProvider.tsx:26-31 | the load effect adopts the stored value when it is `light` or `dark`; otherwise it keeps the current theme. The result is always a mode or the current theme. The truthiness test adds no case: an empty string is not a mode either |
| `Theme.Toggled` | packages/ui/src/theme/ThemeProvider.tsx:40-42 | the toggle result is always `light` or `dark`. It is `dark` exactly when the previous value was `light`. It always differs from the previous value |
| `Theme.ToggleTwiceFromMode` | packages/ui/src/theme/ThemeProvider.tsx:40-42 | toggling twice from `light` or `dark` returns to the start |
| `Theme.ToggleTwiceFromOther` | packages/ui/src/theme/ThemeProvider.tsx:3-8 | from a value that is not a mode, which `setTheme` accepts, one toggle gives `light` and two give `dark` |
| `Theme.SyncedRoot` | packages/ui/src/theme/ThemeProvider.tsx:34-35 | after a sync, the root holds `dark` exactly when the theme is `dark`. No other class is added or removed |
| `Theme.SyncedRootLastWins` | packages/ui/src/theme/ThemeProvider.tsx:33-38 | the root after several syncs depends only on the last theme synced. Repeating a sync changes nothing, so the marker never stacks |
| `Theme.ThemeProvider.InSync` | packages/ui/src/theme/ThemeProvider.tsx:33-38 | the state the sync effect leaves. `getItem("theme")` returns the theme, and the root carries `dark` exactly for `dark`. A further sync would leave the root unchanged |
| `Theme.ThemeProvider.constructor` | packages/ui/src/theme/ThemeProvider.tsx:23-24 | the first render starts at `defaultTheme`. When no default is given, it starts at `light`. Store and root are untouched |
| `Theme.ThemeProvider.Sync` | packages/ui/src/theme/ThemeProvider.tsx:33-38 | the sync effect keeps the theme. It sets the root classes to `SyncedRoot` of the old ones and writes `storage["theme"] := theme`. Afterwards store, root and theme agree (`InSync`) |
| `Theme.ThemeProvider.Mount` | packages/ui/src/theme/ThemeProvider.tsx:26-38 | mounting reads the store before the first write. The final theme is `Loaded(stored value, initial theme)`. The stored value is overwritten with that theme, so an invalid one does not remain. The root is synced to that theme, and `InSync` holds |
| `Theme.ThemeProvider.SetTheme` | packages/ui/src/theme/ThemeProvider.tsx:24 | the theme becomes the argument, with no validation. A changed value syncs store and root. An unchanged value leaves them alone, because React skips that re-render. A changed value, or a provider that was in sync, ends `InSync` |
| `Theme.ThemeProvider.ToggleTheme` | packages/ui/src/theme/ThemeProvider.tsx:40-42 | the theme becomes `Toggled` of the old theme. Because that always differs from the old value, the store and root are always synced |
| `Theme.UseTheme` | packages/ui/src/theme/ThemeProvider.tsx:57-63 | fails with "useTheme must be used within a ThemeProvider" exactly when no provider encloses the caller. Otherwise it returns the nearest enclosing provider |
| `Theme.RenderAndMount` | packages/ui/src/theme/ThemeProvider.tsx:23-38 | a freshly mounted provider shows these themes: the stored value when it is `light` or `dark`; otherwise `defaultTheme`; `light` when there is neither. The store then holds that theme, the root carries `dark` exactly when the theme is `dark`, and no other root class changes |
| `Theme.MountThenToggleTwice` | packages/ui/src/theme/ThemeProvider.tsx:33-42 | after mount, two toggles give two different modes. Two toggles return to a start that was a mode. After each toggle the persisted value equals the theme, and the root marker is present exactly for `dark` |
| `Theme.ConsumerSetsTheme` | packages/ui/src/theme/ThemeProvider.tsx:44-48 | a consumer outside every provider gets the error and changes no provider. A consumer inside sets the nearest provider's theme to exactly the string given, with no validation. That provider's store and root are synced as `SetTheme` states, and no other provider is modified |
| `Input.VariantClass` | packages/ui/src/components/Input.tsx:13-17 | the `inputVariants` lookup. Every entry is non-empty and differs from the error fragment, every base fragment and every size entry |
| `Input.SizeClass` | packages/ui/src/components/Input.tsx:19-23 | the `inputSizes` lookup. Every entry is non-empty and differs from the error fragment and every base fragment |
| `Input.VariantOf` | packages/ui/src/components/Input.tsx:26 | the variant in effect is the one given, or `default` when omitted |
| `Input.SizeOf` | packages/ui/src/components/Input.tsx:27 | the size in effect is the one given, or `md` when omitted |
| `Input.HasError` | packages/ui/src/components/Input.tsx:26-36 | the field is in error exactly when `error` is `true` or `errorText` is a non-empty string. An omitted `error` counts as `false` |
| `Input.Fragments` | packages/ui/src/utils/cn.test.ts:10-23 | the arguments `cn` keeps are its non-empty string arguments: `false`, `undefined` and `""` contribute nothing. Every fragment kept is non-empty, and there are never more fragments than arguments |
| `Input.ClassArgs` | packages/ui/src/components/Input.tsx:50-59 | the eight `cn` arguments, in source order: the four base fragments; the error fragment when in error, else `false`; the selected variant's fragment when not in error, else `false`; the selected size's fragment; `className`, or `undefined` when it is omitted. Exactly one of arguments 5 and 6 is a string |
| `Input.InputClassOrder` | packages/ui/src/components/Input.tsx:50-59 | dropping the falsy arguments from those eight leaves, in order: the four base fragments; the error fragment or the selected variant's; the selected size's; then `className` when it is non-empty |
| `Input.InputClasses` | packages/ui/src/components/Input.tsx:50-59 | the class fragments the input element receives are exactly that ordered list |
| `Input.ErrorReplacesVariant` | packages/ui/src/components/Input.tsx:55-56 | among the fragments the component picks itself, the error fragment appears exactly when the field is in error. A variant fragment appears exactly when it is not, and then only that of the selected variant |
| `Input.VariantClassesDistinct` | packages/ui/src/components/Input.tsx:13-23 | the three `inputVariants` entries are pairwise different. None equals the error fragment, a base fragment or an `inputSizes` entry |
| `Input.DefaultsApplied` | packages/ui/src/components/Input.tsx:26-28 | omitting `variant`, `size` and `error` gives the same fragments as passing `default`, `md` and `false` |
| `Input.MessageLine` | packages/ui/src/components/Input.tsx:62-68 | the message line appears exactly when `helperText` or `errorText` is non-empty. It shows `errorText` when that is non-empty, else `helperText`, and the text is never empty. Its fragments are the base message fragment, then the error colour when in error, else the tertiary colour |
| `Input.Render` | packages/ui/src/components/Input.tsx:38-49 | a label is rendered exactly when `label` is non-empty. It shows that text, and its `htmlFor` equals the input's `id`. The input carries the ordered fragments, and the message line is as above |
| `Input.ErrorTextShowsError` | packages/ui/src/components/Input.tsx:36-67 | a non-empty `errorText` alone styles the input with the error fragment. The message then shows that text in the error colour, whatever `helperText` and `error` are |
| `Input.ErrorFlagWithoutText` | packages/ui/src/components/Input.tsx:36-67 | with `error` set and no error text, a helper text is still shown, in the error colour. With no helper text there is no message line, though the input keeps the error fragment |

## Left out

- `cn`'s output string. Its implementation (`packages/ui/src/utils/cn.ts`) is not part of this model. The model stops at the ordered list of non-falsy fragments handed to it. It does not model class deduplication or Tailwind conflict resolution.
- `Button.tsx`. It only looks up fixed class strings by variant and size and has no derived state.
- Rendering, JSX structure, the wrapper `div`, the props forwarded to the `<input>` (`placeholder`, `disabled`, event handlers) and snapshot output. These are presentation only; only the decisions above are modelled.
- Effect scheduling inside React. The sync effect is modelled as running right after each state change. A child's effect that calls `setTheme` before the provider's own mount effects is not modelled.
- The real `localStorage` and DOM, including storage exceptions and other writers of the `theme` key or the root class list. They are a map and a set owned by the provider object, so several providers sharing one store are not modelled.
- The demo app, the Storybook stories and the build and test configuration. They contain no logic of the library.
