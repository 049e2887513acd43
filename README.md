# Dashio dashboard script, modelled in Dafny

This project models the logic of the Dashio admin-dashboard template's page
script, `src/js/main.js`, and proves what that script promises:

- the hex colour codec: `hexToRgb` parses an optional `#` and six hex digits in
  either case; `shadeColor` lightens or darkens each channel by a percentage and
  writes the colour back as `#` and six lower-case digits (`color.dfy`, with the
  number formatting it relies on in `format.dfy`);
- the primary-colour switcher: `setPrimaryColor` writes six CSS custom
  properties, `updateActiveColorSwatch` marks the chosen swatch, and
  `initColorSwitcher` and its click handler tie them to the saved colour
  (`color_switcher.dfy`, with `localStorage` in `storage.dfy`);
- the dark/light theme toggle (`theme.dfy`);
- the mobile sidebar (`sidebar.dfy`);
- the "Add Order" modal's price fill-in and submit logic (`order.dfy`) and the
  toast list of `showToast` (`toast.dfy`).

The pure parts are functions over `string` (`seq<char>`) and `int`. The parts
that change the page are classes whose fields are the state the script writes:
the root element's style map, the swatch array, the theme attribute and icon,
the sidebar's classes and the body's `overflow`, the form fields, the toast
container and `localStorage`. Every event handler is a method whose
postcondition gives the new state as a pure function of the old one. The
properties are proved about those functions. For the theme toggle and the
sidebar they hold for whole sequences of events (`Theme.Run`, `Sidebar.Run`),
and for the toasts for any sequence of hidings (`Toast.DismissAll`). The
colour-switcher and order-modal properties are about a single handler call.

JavaScript details are written out. `Math.round(x)` is `floor(x + 0.5)`, so a
channel step is `(v * percent + 50) / 100` with floor division. A template
literal renders `undefined` as the text `undefined`. A value read with
`localStorage.getItem` counts as set only when it is neither `null` nor `""`.
Prices are held in whole cents, and `toFixed(2)` is modelled exactly for them.

The sidebar's open button is a "toggle" only in name. Its handler only ever
adds `show`, so a second press leaves the sidebar open. The code is followed
here, not the idea that toggling twice hides the sidebar again
(`Sidebar.OpenIdempotent`). Likewise the theme code accepts any non-empty saved
value as the first theme, not only `light` and `dark`.

## Model

| member | source | states |
|---|---|---|
| Format.ToString16 | src/js/main.js:253 | `toString(16)` writes at least one lower-case hex digit, a single digit exactly for values below 16, and no leading zero except for 0 |
| Format.ParseHexOfToString16 | src/js/main.js:253 | `parseInt(v.toString(16), 16) == v` for every non-negative integer |
| Format.ParseHex2 | src/js/main.js:239-241 | `parseInt` of two hex digits is 16 times the first digit's value plus the second's |
| Format.ParseHex | src/js/main.js:239-241 | `parseInt(s, 16)` of a numeral of n hex digits is below 16^n |
| Format.PadStart | src/js/main.js:253 | `padStart(n, c)` keeps the string as its suffix, fills the front with `c`, and is as long as the longer of `n` and the string |
| Format.ToHex2 | src/js/main.js:253 | `toHex` of a channel is two lower-case hex digits whose value is the channel |
| Format.ToHex2IsPaddedToString16 | src/js/main.js:253 | those two digits are exactly `v.toString(16).padStart(2, '0')` |
| Format.ParseHexOfToHex2 | src/js/main.js:239-241 | reading a `toHex` pair with `parseInt` gives the channel back |
| Format.ToHex2OfDigits | src/js/main.js:239-253 | a pair of hex digits read as a number and written with `toHex` comes back in lower case |
| Format.ToHex2OfParseHex | src/js/main.js:239-253 | `toHex(parseInt(pair, 16))` is the pair in lower case |
| Format.DecimalString | src/js/main.js:207 | `String(n)` is a canonical decimal numeral, one digit exactly below 10 |
| Format.ParseDecimalString | src/js/main.js:207 | the numeral `String(n)` writes reads back as `n` |
| Format.DecimalStringOfParse | src/js/main.js:207 | every canonical numeral is what `String` writes for its value, so the two are inverse |
| Format.ToFixed2 | src/js/main.js:285 | `toFixed(2)` ends in a point and two places |
| Format.ToFixed2Value | src/js/main.js:285 | the whole part is canonical and whole part and places read back as the amount in cents |
| Color.IsHexColor | src/js/main.js:237 | the strings the pattern accepts: six hex digits in either case, preceded by `#` exactly when the string has seven characters |
| Color.PairValue | src/js/main.js:239-241 | a captured pair of hex digits is a channel below 256 |
| Color.ChannelsAt | src/js/main.js:238-242 | the three channels from six hex digits all lie in [0, 255] |
| Color.HexToRgb | src/js/main.js:236-243 | non-null exactly for an optional `#` and six hex digits in either case; then the channels of the three pairs, each in [0, 255] |
| Color.HexToRgbParsesGroups | src/js/main.js:237-241 | each channel is `parseInt(group, 16)` of the group the pattern captures |
| Color.RgbToHex | src/js/main.js:253-255 | the written colour is `#` and six lower-case hex digits |
| Color.HexToRgbOfRgbToHex | src/js/main.js:236-255 | `hexToRgb` of a written colour gives back the channels written |
| Color.RgbToHexOfHexToRgb | src/js/main.js:236-255 | writing back a parsed colour gives `#` and its digits in lower case |
| Color.RoundDiv100 | src/js/main.js:252 | `Math.round(n / 100)` is the nearest integer, halves rounded up |
| Color.Clamp | src/js/main.js:252 | `min(255, max(0, x))` is a channel, the identity on channels, 0 below and 255 above |
| Color.ShadeChannel | src/js/main.js:252 | a shaded channel stays in range, is unchanged at 0%, never grows for a negative and never shrinks for a positive percentage, is 0 at -100% or less and 255 at +100% or more for channels from 128 |
| Color.ShadeRgb | src/js/main.js:255 | the three `shade` calls on the red, green and blue channels give a colour whose channels are all in [0, 255] |
| Color.ShadeColor | src/js/main.js:248-256 | a malformed colour comes back unchanged; a well-formed one comes back as `#` and six lower-case digits |
| Color.ShadeColorChannels | src/js/main.js:248-255 | `hexToRgb` of a shaded colour succeeds and gives the shaded channels of the input |
| Color.ShadeColorZero | src/js/main.js:248-255 | shading by 0% only adds `#` and lowers the case of the digits |
| Color.ShadeColorBlack | src/js/main.js:248-255 | shading by -100% or less gives `#000000` |
| ColorSwitcher.RgbList | src/js/main.js:207 | defines the channel list `${rgb.r}, ${rgb.g}, ${rgb.b}`; its meaning is stated by `RgbListReadsBack` |
| ColorSwitcher.RgbListReadsBack | src/js/main.js:207 | the channel list splits at its two `, ` separators into three canonical numerals that read back as red, green and blue |
| ColorSwitcher.StyleVars | src/js/main.js:206-216 | the six variables get the colour, its channel list and its darker variant, each on two keys |
| ColorSwitcher.SetPropertiesOverride | src/js/main.js:206-216 | the six `setProperty` calls in order override exactly those six variables and keep every other property |
| ColorSwitcher.PrimaryColorVars | src/js/main.js:199-216 | for a well-formed colour: exactly six keys, the colour on `--bs-primary` and `--bs-link-color`, `r, g, b` on the two `-rgb` keys, one darker value on the two others |
| ColorSwitcher.PrimaryDarkerIsShaded | src/js/main.js:210-216 | the darker value is a well-formed lower-case colour whose channels are the colour's shaded by -15% |
| ColorSwitcher.WithPrimaryColor | src/js/main.js:199-216 | a malformed colour leaves the style map as it is; a well-formed one adds exactly the six variables and keeps every other property |
| ColorSwitcher.RootStyle.SetPrimaryColor | src/js/main.js:199-216 | `setPrimaryColor` leaves the style map equal to `WithPrimaryColor` of the old one |
| ColorSwitcher.UpdateActiveColorSwatch | src/js/main.js:227-231 | afterwards a swatch is active exactly when its colour is the given one; the number of swatches and their colours do not change |
| ColorSwitcher.InitColorSwitcher | src/js/main.js:162-183 | a truthy saved colour is applied; the picker is hidden exactly when it exists outside demo mode; the saved swatch is marked only when the switcher is wired |
| ColorSwitcher.OnSwatchClick | src/js/main.js:185-195 | a click on a swatch applies its colour, marks it and saves it under `primaryColor`; a click elsewhere changes nothing |
| Storage.Lookup | src/js/main.js:107 | `getItem` on a storage snapshot is `null` exactly for a key never stored, and otherwise the stored value |
| Storage.LocalStorage.GetItem | src/js/main.js:164 | the same for the live storage object |
| Storage.Truthy | src/js/main.js:165 | defines the truthiness test on a `getItem` result: neither `null` nor the empty string |
| Storage.LocalStorage.SetItem | src/js/main.js:121 | `setItem` stores the value under the key and touches no other key |
| Theme.SystemTheme | src/js/main.js:109 | the system theme is `dark` exactly when the system prefers dark, else `light` |
| Theme.InitialTheme | src/js/main.js:107-110 | a truthy saved theme wins; otherwise the system's `dark` or `light` |
| Theme.Toggled | src/js/main.js:116-117 | a click gives `light` exactly when the current theme is `dark`, and `dark` otherwise |
| Theme.IconClass | src/js/main.js:148 | the icon is the sun exactly for the `dark` theme, else the moon |
| Theme.WithIcon | src/js/main.js:144-149 | a button without an icon is left alone; otherwise its icon shows the theme |
| Theme.Apply | src/js/main.js:111-129 | defines the `setTheme` and `updateThemeToggleIcon` pair every handler runs: the attribute becomes the theme and the icon, when present, its class |
| Theme.Init | src/js/main.js:102-112 | defines the state `initThemeToggle` leaves on a page with the toggle; its properties are stated by `InitConsistent` |
| Theme.Next | src/js/main.js:115-131 | defines the effect of a click and of a system change as a transition function; its properties are stated by the lemmas below |
| Theme.InitConsistent | src/js/main.js:102-113 | after set-up the icon matches the theme, the saved theme when there is one, else the system's |
| Theme.ClickFlipsAndSaves | src/js/main.js:115-122 | a click flips `dark` and non-`dark`, saves the new theme under `theme` and keeps every other key |
| Theme.ClickTwice | src/js/main.js:115-122 | two clicks from `dark` or `light` restore it |
| Theme.SystemChangeApplies | src/js/main.js:125-131 | a system change applies exactly when no truthy theme is saved, and never writes storage |
| Theme.NextConsistent | src/js/main.js:115-131 | every event keeps the icon in step with the theme and the theme equal to a saved one |
| Theme.RunConsistent | src/js/main.js:115-131 | the same holds after any sequence of clicks and system changes |
| Theme.SavedThemeIgnoresSystem | src/js/main.js:125-131 | once a theme is saved, any number of system changes alter nothing |
| Theme.RunKeepsOtherKeys | src/js/main.js:115-131 | the theme code writes no `localStorage` key but `theme` |
| Theme.ThemeToggle.SetTheme | src/js/main.js:137-139 | `setTheme` sets the `data-bs-theme` attribute and nothing else |
| Theme.ThemeToggle.UpdateThemeToggleIcon | src/js/main.js:144-149 | the icon, when present, gets the class for the theme |
| Theme.ThemeToggle.InitThemeToggle | src/js/main.js:102-113 | without the toggle nothing happens; otherwise the state becomes `Init` of the old one |
| Theme.ThemeToggle.OnClick | src/js/main.js:115-122 | the click handler performs the `Click` step |
| Theme.ThemeToggle.OnSystemChange | src/js/main.js:125-131 | the system-change handler performs the `SystemChange` step |
| Sidebar.Next | src/js/main.js:71-92 | defines the effect of the toggle, of `closeSidebar` and of a key press as a transition function; its properties are stated by the lemmas below |
| Sidebar.OpenIdempotent | src/js/main.js:71-75 | opening twice is opening once, and leaves the sidebar shown |
| Sidebar.KeyDownCloses | src/js/main.js:88-92 | Escape closes a shown sidebar; any other key, or Escape on a hidden one, changes nothing |
| Sidebar.NextSynced | src/js/main.js:71-92 | every event keeps backdrop and scroll lock in step with the sidebar |
| Sidebar.RunSynced | src/js/main.js:71-92 | the same holds after any sequence of events |
| Sidebar.RunShownIffLastOpen | src/js/main.js:71-92 | the sidebar is shown after any sequence of events exactly when its last decisive event (the toggle, `closeSidebar` or Escape) was the toggle, or, with no decisive event, when it was shown at the start |
| Sidebar.SidebarPage.OnToggleClick | src/js/main.js:71-75 | the toggle shows sidebar and backdrop and sets `overflow: hidden` |
| Sidebar.SidebarPage.CloseSidebar | src/js/main.js:78-85 | `closeSidebar` clears all three |
| Sidebar.SidebarPage.OnKeyDown | src/js/main.js:88-92 | the key handler performs the `KeyDown` step |
| Toast.KindOrDefault | src/js/main.js:320 | defines the default argument: an omitted `type` is `'primary'` |
| Toast.IconFor | src/js/main.js:332-343 | the three known types get their icons; an omitted or unknown type gets the primary icon |
| Toast.Shown | src/js/main.js:351-360 | (corrected; see ## Findings) the new toast is appended last and live, and the existing toasts stay in place |
| Toast.ShownKeepsAllLive | src/js/main.js:351-360 | (corrected; see ## Findings) binding the inserted toast keeps every toast live, so none is stranded |
| Toast.Dismissed | src/js/main.js:358-360 | a hidden live toast is removed and nothing else changes |
| Toast.DismissedKeepsAllLive | src/js/main.js:358-360 | removals keep every toast live |
| Toast.IndexOfId | src/js/main.js:353 | `getElementById` finds the first toast with the id, or none |
| Toast.ShowAsWritten | src/js/main.js:351-355 | inserting adds exactly one toast |
| Toast.AsWrittenAgreesWhenFresh | src/js/main.js:331-355 | with a fresh id the code as written appends the new toast live, as `Shown` does |
| Toast.CollidingIdStrandsToast | src/js/main.js:331-355 | with an id already present the new toast is left last and not live |
| Toast.SameMillisecondExample | src/js/main.js:331-355 | two toasts with the same millisecond id: the second one stays unbound |
| Toast.DismissedKeepsStranded | src/js/main.js:358-360 | hiding a toast never removes a stranded one |
| Toast.DismissalsKeepStranded | src/js/main.js:358-360 | the number of stranded toasts survives any sequence of hidings |
| Toast.ToastHost.ShowToast | src/js/main.js:320-360 | the container is created if missing and gets the new live toast last, with the icon for its type |
| Toast.ToastHost.OnHidden | src/js/main.js:358-360 | the `hidden.bs.toast` listener removes that toast and only it |
| Order.PlanPrice | src/js/main.js:275-279 | exactly `basic`, `premium` and `enterprise` have a price, each a positive whole amount |
| Order.PriceStrings | src/js/main.js:275-285 | the three prices are written `99.00`, `299.00` and `599.00` |
| Order.AmountAfterChange | src/js/main.js:282-287 | the amount field is present afterwards exactly when it was before, and it changes only to the `toFixed(2)` price of a priced plan |
| Order.PlanChangeAmounts | src/js/main.js:282-287 | choosing a plan fills in its price; any other value, or a page without the amount field, leaves the amount unchanged |
| Order.Display | src/js/main.js:308 | defines how the template literal renders a value: the text itself, or `undefined` when the value is missing |
| Order.OrderMessage | src/js/main.js:308 | defines the success message as the template writes it; its parts are stated by `OrderMessageParts` |
| Order.OrderMessageParts | src/js/main.js:308 | the message is the fixed prefix, the name, ` - ` and the plan text, `undefined` standing in for a missing value |
| Order.SelectedPlanText | src/js/main.js:298 | the plan text is defined exactly when the select exists and has a selected option, and is that option's text |
| Order.OrderModal.ResetForm | src/js/main.js:305-313 | `addOrderForm.reset()` puts every field back to its default and leaves the modal's visibility alone |
| Order.OrderModal.OnPlanChange | src/js/main.js:282-287 | picking option `i` of the plan select moves the selected index to it and fills in the price of its value, so a later submit reads that option's text; nothing else changes |
| Order.OrderModal.OnSubmit | src/js/main.js:290-309 | an invalid form changes nothing; a valid one hides the modal, resets the form and adds exactly one success toast made from the values read before the reset |
| Order.OrderModal.OnHidden | src/js/main.js:312-315 | closing the modal resets the form |

## Left out

- `src/js/charts.js` and `vite.config.js` are not part of this model: chart set-up and the build flag. Demo mode is a boolean parameter of `InitColorSwitcher`.
- `initTooltips` and `initPopovers` only construct Bootstrap widgets. Bootstrap's internals are left out: the modal's hide animation and the toast's 4000 ms auto-hide. Hiding the modal is modelled as clearing `shown`, and a toast's hiding is the `OnHidden` event.
- Timers and observers are left out: the 50 ms `setTimeout` chart refresh after `setPrimaryColor`, the `MutationObserver`, and the registration of listeners. Each listener is a method that the caller invokes when its event fires.
- The DOM queries are left out. That covers `closest('.color-swatch')` (a swatch index is passed), the presence of the elements, `checkValidity`/`reportValidity` (a boolean is passed) and `Date.now()` (the toast id is passed).
- Building the toast's HTML and injecting the unescaped message into it are left out. So are the container's classes and `z-index`.
- `initSidebar`'s early return and its creation of a missing backdrop are left out. The model starts from the page after set-up.
- Swatches without a `data-color` are left out. Colours are always strings here, so `undefined` is not modelled.
- A form missing from `initAddOrderModal` is left out. Without it the submit handler throws at `addOrderForm.checkValidity()` (`src/js/main.js:291`), but the model always has a form.
- Property lookups that reach the object prototype are left out. `planPrices['constructor']` is a function: the code calls `toFixed` on it and throws. `iconMap['toString']` is also a function, and its source text would end up in the icon's class. `PlanPrice` and `IconFor` treat such keys like any unknown key.
- Floating point is left out. Prices are whole cents and channel arithmetic is integer. `Math.round` is applied to `value * percent / 100`, which need not be an integer. For integer `value` and `percent` that quotient is a whole number of hundredths, so rounding it gives exactly `(value * percent + 50) / 100` with floor division.
- `localStorage` failures (quota, disabled storage) are left out.
- Toast.ToastHost.ShowToast: binds the toast it inserted, the corrected behaviour of the Findings row below. When the id is already in the container it differs from `getElementById` at `src/js/main.js:353`, which binds the older toast and leaves the new one unshown; `Toast.ShowAsWritten` models the code as written.
- Order.OrderModal.OnSubmit: its toast goes through `Toast.ToastHost.ShowToast`, so it shares that corrected binding and differs from `src/js/main.js:308` and 353 when the id is already present; `Toast.ShowAsWritten` models the code as written.
- Removal in `Toast.Dismissed` is by position, standing for the element reference the listener holds, not by id.

## Findings

| source | as written | input that shows it | evidently intended | confidence | as-written member | corrected member |
|---|---|---|---|---|---|---|
| src/js/main.js:331-360 | the new toast is found again with `getElementById` on the id `toast-${Date.now()}`, which returns the first element carrying that id | two `showToast` calls in the same millisecond while the first toast is still shown, e.g. `Dashio.showToast` called twice in a row | each call shows its own toast and removes it once hidden | not executed; depends on the clock's resolution | Toast.CollidingIdStrandsToast | Toast.ShownKeepsAllLive |
