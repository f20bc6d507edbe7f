# Portfolio page behaviour, modelled in Dafny

The portfolio site's only script, `assets/js/main.js`, wires three independent
controllers to the page when it loads:

- the **mobile menu**: the `#hamburger` trigger toggles the `show` class on
  `#navLinks` and keeps its `aria-expanded` and `aria-label` in step; Escape
  and a click on a link inside the nav close it;
- the **theme switch**: the `data-theme` attribute on the document root, read
  from the `theme` key of local storage at load (default `"dark"`), flipped by
  `#themeToggle`, persisted on every flip, announced in a live region, and
  mirrored in the toggle's `aria-pressed`;
- the **project filter**: a search box, a row of `.chip` category buttons of
  which one is active, and the `#projectGrid .card` elements whose
  `style.display` is recomputed from the active chip's tag and the search
  text; inline tags inside the cards select a chip and clear the search.

The model keeps the page abstract. Cards and chips are records in arrays that
the handlers update in place. The search text, the theme, the stored value and
the trigger's attributes are fields of one class per controller. Each event
handler is a method of that class. Missing elements are constant flags
(`navPresent`, `iconPresent`, `searchPresent`). Browser string functions are
pure functions with proved properties.

Files:

- `option.dfy` (`Opt`): `Option`, for attributes and lookups that may be absent.
- `text.dfy` (`Text`): `Lower` (`toLowerCase`), `Trim` (`trim`) and `Includes`
  (`includes`), with lemmas about them.
- `filter.dfy` (`Filter`): the filter rule, chip selection, and the
  `ProjectFilter` class with its handlers.
- `theme.dfy` (`Theme`): the theme functions and the `ThemeController` class.
- `menu.dfy` (`Menu`): the menu handler as written and as corrected, and the
  `NavMenu` class.

## Model

| member | source | states |
|---|---|---|
| `Text.Includes` | assets/js/main.js:111-112 | `includes` is a substring test: true exactly when the needle occurs as a contiguous run somewhere in the haystack |
| `Text.IncludesEmpty` | assets/js/main.js:111 | the empty needle is found in every string, so a chip whose `data-tag` is empty lets every card through the tag test |
| `Text.IncludesChars` | assets/js/main.js:111-112 | every character of a found needle occurs in the haystack |
| `Text.NotIncludes` | assets/js/main.js:111-112 | a needle holding a character the haystack lacks is not found |
| `Text.Lower` | assets/js/main.js:104-110 | `toLowerCase` keeps the length and maps each character on its own: upper-case letters to lower case, everything else unchanged |
| `Text.LowerIdempotent` | assets/js/main.js:104 | lower-casing an already lower-cased string changes nothing |
| `Text.TrimStart` | assets/js/main.js:104 | strips exactly the leading white space: the result is a suffix, everything cut is white space, and the result does not start with white space |
| `Text.TrimEnd` | assets/js/main.js:104 | strips exactly the trailing white space, symmetrically |
| `Text.Trim` | assets/js/main.js:104 | the trimmed string is no longer than the input and neither starts nor ends with white space |
| `Text.TrimStrips` | assets/js/main.js:104 | the trimmed string is an infix of the input with only white space on either side of it |
| `Text.TrimUnique` | assets/js/main.js:104 | only one infix has white space on both sides and none at its own ends |
| `Text.TrimIdempotent` | assets/js/main.js:104 | trimming twice is trimming once |
| `Text.LowerTrimCommute` | assets/js/main.js:104 | lower-casing then trimming gives the same string as trimming then lower-casing |
| `Filter.FirstIndex` | assets/js/main.js:105 | the search in document order returns the first element that satisfies the test, or nothing when no element does |
| `Filter.ActiveIndex` | assets/js/main.js:105 | `.chip.active` finds the first active chip in document order, or nothing when no chip is active |
| `Filter.MatchingChip` | assets/js/main.js:140 | the first chip whose tag equals the inline tag ignoring case, or nothing when no chip's does |
| `Filter.AllChip` | assets/js/main.js:144 | the first chip whose tag is exactly `"all"` (case-sensitive), or nothing |
| `Filter.ActiveTag` | assets/js/main.js:105-106 | the filter tag is the first active chip's tag, lower-cased, or `"all"` when no chip is active |
| `Filter.Query` | assets/js/main.js:104 | the query is no longer than the search text and has no white space at its ends |
| `Filter.QueryNormal` | assets/js/main.js:104 | the query equals the trimmed search text lower-cased, and holds no upper-case letter |
| `Filter.QueryIdempotent` | assets/js/main.js:104 | normalising an already normalised query changes nothing |
| `Filter.QueryFixed` | assets/js/main.js:104 | search text that is already lower-case and trimmed is its own query |
| `Filter.ProjectFilter.RawQuery` | assets/js/main.js:104 | the search text is the box's value when the box exists, and empty otherwise |
| `Filter.CardName` | assets/js/main.js:109 | the card's heading lower-cased, of the same length; empty when the card has no heading |
| `Filter.CardTags` | assets/js/main.js:110 | the card's `data-tags` lower-cased, of the same length; empty when the attribute is missing |
| `Filter.Shows` | assets/js/main.js:111-113 | a shown card contains the tag in its tags (or the tag is `"all"`) and the query in its name or tags (or the query is empty); tag `"all"` with an empty query shows every card |
| `Filter.Refresh` | assets/js/main.js:108-114 | one card's display becomes `"block"` exactly when it is shown, `"none"` otherwise; heading and tags are kept |
| `Filter.Filtered` | assets/js/main.js:108-114 | the refreshed cards keep their number, order, headings and tags, and each display is `"block"` or `"none"` |
| `Filter.FilteredDisplay` | assets/js/main.js:108-114 | after filtering, a card shows `"block"` iff (tag is `"all"` or the tags contain it) and (query empty or name or tags contain it), and `"none"` otherwise; its heading and tags are unchanged |
| `Filter.FilteredIdempotent` | assets/js/main.js:103-114 | filtering twice with the same tag and query gives the same cards as filtering once |
| `Filter.NoActiveChipShowsByText` | assets/js/main.js:106-111 | with no active chip every card passes the tag test, and with an empty query every card is shown |
| `Filter.TagIsSubstring` | assets/js/main.js:111 | the tag test is a substring test: tag `"web"` accepts a card tagged `"webdev"` |
| `Filter.CaseInsensitive` | assets/js/main.js:104-112 | cards and search texts that differ only in letter case are shown alike |
| `Filter.ChipTagCaseInsensitive` | assets/js/main.js:106 | chips whose tags differ only in case give the same filter tag |
| `Filter.PortfolioShown` | assets/js/main.js:104-113 | once a chip tagged "design" alone is active, a card named "Portfolio Site" tagged "web,design" shows with an empty search |
| `Filter.PortfolioHidden` | assets/js/main.js:104-113 | under the same active chip the same card is hidden when the search is "blog" |
| `Filter.DesignChipTag` | assets/js/main.js:105-106 | with the chip tagged "design" alone active, the filter tag is "design" |
| `Filter.Activate` | assets/js/main.js:125-126 | selecting keeps the chips' number and tags; selecting nothing leaves no chip active |
| `Filter.ActivateExclusive` | assets/js/main.js:125-126 | after selection exactly the selected chip is active, whatever was active before, and every chip keeps its tag |
| `Filter.ActivateTag` | assets/js/main.js:125-126 | once one chip alone is active, the filter runs with that chip's tag lower-cased; with none active, with `"all"` |
| `Filter.InlineSelection` | assets/js/main.js:139-146 | when some chip's tag equals the inline tag ignoring case, the first such chip is selected; only when none does, the first chip tagged exactly `"all"` is, and nothing only when there is no such chip either |
| `Filter.InlineTag` | assets/js/main.js:137-149 | after an inline-tag click the filter runs with the inline tag lower-cased when some chip matches it, and with `"all"` otherwise |
| `Filter.InlineTagFallsBackToAll` | assets/js/main.js:140-146 | an inline tag "design" with no "design" chip selects the "all" chip |
| `Filter.ProjectFilter.ApplyFilter` | assets/js/main.js:103-115 | every card's display is recomputed from the active chip's tag and the normalised query, and nothing else in the card changes |
| `Filter.ProjectFilter.Refilter` | assets/js/main.js:108-114 | the loop over the cards leaves each card refreshed in place, in the same order |
| `Filter.ProjectFilter.ClearActive` | assets/js/main.js:125 | every chip loses `active` and keeps its tag |
| `Filter.ProjectFilter.Input` | assets/js/main.js:117 | typing sets the search text and refilters with it |
| `Filter.ProjectFilter.ClearSearch` | assets/js/main.js:118-122 | the clear button empties the search text and refilters; without a search box nothing changes |
| `Filter.ProjectFilter.ClickChip` | assets/js/main.js:123-129 | the clicked chip alone becomes active and the cards are refiltered by its tag lower-cased |
| `Filter.ProjectFilter.ClickInlineTag` | assets/js/main.js:136-150 | an empty or missing tag changes nothing; otherwise the selected chip alone is active, the search text is cleared if the box exists, and the cards are refiltered |
| `Filter.ProjectFilter.KeyInlineTag` | assets/js/main.js:151-153 | Enter or Space on an inline tag acts as a click (so with an empty or missing tag nothing changes), and any other key changes nothing |
| `Theme.InitialTheme` | assets/js/main.js:55-60 | the initial theme is the saved value when that is non-empty, and `"dark"` otherwise |
| `Theme.InitialThemeIgnoresPreference` | assets/js/main.js:56-59 | the system colour-scheme preference never changes the initial theme; with nothing saved it is `"dark"` |
| `Theme.NextTheme` | assets/js/main.js:70 | a toggle gives `"light"` exactly from `"dark"`, and `"dark"` from anything else |
| `Theme.ToggleTwice` | assets/js/main.js:70 | two toggles from `"dark"` or `"light"` restore it; from any other value they end in `"light"` |
| `Theme.StatusText` | assets/js/main.js:74 | the announcement is "Dark mode enabled" exactly for the dark theme, and "Light mode enabled" otherwise |
| `Theme.PressedText` | assets/js/main.js:85-91 | `aria-pressed` is `"true"` exactly in light mode |
| `Theme.ThemeController.constructor` | assets/js/main.js:55-67 | at load the initial theme is applied, storage is left as read, the live region starts empty, and `aria-pressed` follows the theme when the icon elements exist |
| `Theme.ThemeController.UpdateThemeIcon` | assets/js/main.js:77-95 | with the icon and toggle present `aria-pressed` follows the mode; otherwise nothing changes |
| `Theme.ThemeController.Toggle` | assets/js/main.js:69-75 | the theme flips, and afterwards the stored key equals the applied theme, the announcement and `aria-pressed` match it, and the theme is dark or light; without the icon elements `aria-pressed` is left alone |
| `Menu.ExpandedText` | assets/js/main.js:19 | `aria-expanded` is `"true"` exactly when the menu is open |
| `Menu.LabelText` | assets/js/main.js:20 | the label reads "Close Menu" exactly when the menu is open |
| `Menu.HamburgerAsWritten` | assets/js/main.js:12-21 | the handler as written flips the menu; when the menu opens with no link inside, the trigger's attributes keep their old values |
| `Menu.HamburgerAsWrittenDesyncs` | assets/js/main.js:13-20 | a closed, in-step menu with no link opens while its trigger still says `"false"` and "Open Menu" |
| `Menu.Hamburger` | assets/js/main.js:12-21 | the guarded handler flips the menu, and `aria-expanded` and `aria-label` then describe the new state |
| `Menu.HamburgerTwice` | assets/js/main.js:12-21 | two clicks return an in-step menu to its starting state |
| `Menu.NavMenu.ClickHamburger` | assets/js/main.js:12-21 | with a nav present the menu state follows `Hamburger`; without one the trigger is marked closed; the trigger's attributes always match; opening with a link takes the first link out of the tab order |
| `Menu.NavMenu.KeyDown` | assets/js/main.js:23-30 | Escape on an open menu closes it and resets the trigger; any other key, or Escape on a closed menu, changes nothing |
| `Menu.NavMenu.ClickNav` | assets/js/main.js:44-51 | a click that lands in a link leaves the menu closed with the trigger reset, whatever its state before; other clicks change nothing |

## Findings

| source | as written | input that shows it | evidently intended | confidence | as-written member | corrected member |
|---|---|---|---|---|---|---|
| assets/js/main.js:15-20 | when the menu opens, `firstLink.setAttribute` runs with no null check. The TypeError ends the handler after the `show` class was toggled and before `aria-expanded` and `aria-label` are set. | a `#navLinks` with no `a` inside, menu closed, trigger in step | guard the call as line 16 guards `focus()`, so the trigger's attributes always describe the menu | not executed | `Menu.HamburgerAsWrittenDesyncs` | `Menu.NavMenu.ClickHamburger` |

The `NavMenu` class uses the corrected behaviour.

## Left out

- DOM queries, `addEventListener` registration and the load-time wiring: each handler is a method that the caller invokes.
- Focus moves (`focus()` on the first link and on the trigger) and the deferred `setTimeout` focus of the search box. They are browser side effects with no state in the model.
- The SVG markup written into `#themeIcon`, the `--brand` colour from `getComputedStyle`, and `toggle.style.color`. Only `aria-pressed` is modelled.
- `matchMedia`, the real `localStorage`, and the footer year from `new Date()`. The preference is a parameter that is ignored. Storage is an `Option<string>` field.
- The load-time stripping of `href` from `a[aria-disabled="true"]` links. It only sets attributes.
- Creating and appending the `#themeStatus` element. It is always created, so the model holds its text as a field that starts empty.
- `Text.Lower`, `Text.Trim`: ASCII only. Unicode case mapping and non-ASCII white space (such as U+00A0 or U+FEFF) are not modelled.
- A `.chip` without a `data-tag` attribute is not modelled. Lines 106 and 140 would throw on it; chip tags are plain strings here.
- A missing `#hamburger` is not modelled. Its click handler is then never registered. The Escape handler would throw at `hamburger.setAttribute` only for a menu shown from the markup. The nav handler would throw there on every click that lands in a link, open or not; no state changes before the throw except the `show` class removal.
- Cards added after load are not modelled. The card array is fixed, as the chip list is.
- `Filter.ProjectFilter.ClickChip`: the chip's place in the document is an index into the chip array, which requires the clicked chip to be one of the chips.
- `e.preventDefault()` on Enter and Space over an inline tag (line 152): it only suppresses the browser's default action, which has no state in the model.
- `Menu.NavMenu.ClickNav`: the click target is reduced to whether it lies inside a link (`closest("a")`).
