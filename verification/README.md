# Cultural theming engine — a Dafny model

This project models the locale theming and formatting engine of a Next.js
application that adapts its look to the user's culture. Each of ten locales
("en", "fr", "de", "zh", "ja", "ar", "es", "it", "pt", "sw") has a theme record in a static
registry. A theme holds six colour roles, number, date and currency
formatting rules, and layout hints (direction, icon style). The cultural
provider resolves the active locale to a theme, falling back to the English
one. It binds formatters to that theme, writes the theme's colours onto the
page as CSS custom properties, and serves consumer hooks. Around it sit
small components with logic of their own:
- the language switcher (path rewrite, open/closed menu);
- the user search widget (a state machine over `userId`, `loading`, `user` and `error`);
- the user lookup client (request shape, error-object choice);
- the user card (age rule, id display);
- the alert (icon table, classes, inline style);
- the button (prop defaults, size and variant tables).

Modules follow the source files:

| module | file | source |
|---|---|---|
| `JsText` | js_text.dfy | the JavaScript string built-ins used: `toString`, `padStart`, `split`, `join`, `trim` |
| `CulturalTypes` | cultural_types.dfy | `src/types/cultural.ts` |
| `CulturalThemes` | cultural_themes.dfy | `src/i18n/cultural-themes.ts` |
| `DigitGrouping` | digit_grouping.dfy | the grouping replace `/\B(?=(\d{3})+(?!\d))/g` |
| `Formatters` | formatters.dfy | `formatNumber`, `formatDate`, `formatCurrency` and the class-name helpers |
| `ColorProjection` | color_projection.dfy | the `match(/\d+/g)?.join(" ")` projection and `useCulturalStyles` |
| `CulturalContext` | cultural_context.dfy | the provider, its effect on the document, and the hooks |
| `Locales` | locales.dfy | `src/i18n.ts` |
| `LanguageSwitcher` | language_switcher.dfy | `src/components/LanguageSwitcher.tsx` |
| `UserApi` | user_api.dfy | `src/services/userApi.ts`, with `User` from `src/types/user.ts` |
| `UserSearch` | user_search.dfy | `src/components/UserSearch.tsx` |
| `UserCard` | user_card.dfy | `src/components/UserCard.tsx` |
| `CulturalAlert` | cultural_alert.dfy | `src/components/CulturalAlert.tsx` |
| `CulturalButton` | cultural_button.dfy | `src/components/CulturalButton.tsx` |

Pure code (the registry, the formatters, the class and icon tables) is
modelled as functions, each with lemmas that tie it to an independent
characterisation. Examples:
- the regular-expression replace is proved equal to grouping digits in threes from the right;
- a formatted date is read back by a separate parser;
- the colour projection is shown idempotent and channel-preserving.

State is modelled as classes whose methods change fields:
- the page's body attributes and root style;
- the provider that keeps the page in step with its locale;
- the language menu;
- the search widget.

## Model

| member | source | states |
|---|---|---|
| JsText.NatToString | src/contexts/CulturalContext.tsx:78-80 | `toString` of a non-negative integer is a non-empty digit string with no leading zero |
| JsText.NatToStringValue | src/contexts/CulturalContext.tsx:78-80 | reading the written digits back gives the number |
| JsText.NatToStringOfValue | src/components/UserCard.tsx:45 | every digit string without a leading zero is what `toString` writes for its value |
| JsText.DigitsValueLeading | src/components/UserCard.tsx:45 | a canonical digit string of two or more digits reads as at least 10, a single digit as less than 10 |
| JsText.PadStart | src/contexts/CulturalContext.tsx:78-79 | `padStart` gives a string of length max(length, width) that ends with the input and is filled with the fill character in front |
| JsText.Split | src/components/LanguageSwitcher.tsx:39 | `split` on one character never returns an empty array, and no part contains the separator |
| JsText.JoinSplit | src/components/LanguageSwitcher.tsx:39-40 | joining a split with the same separator restores the string |
| JsText.SplitJoin | src/components/CulturalButton.tsx:41-52 | splitting a join of separator-free parts gives the parts back |
| JsText.SplitAfterPiece | src/contexts/CulturalContext.tsx:62 | a separator-free piece followed by the separator is split off as one part |
| JsText.SplitWithout | src/contexts/CulturalContext.tsx:62 | a string without the separator splits into itself alone |
| JsText.SplitThree | src/components/CulturalAlert.tsx:48 | three separator-free pieces joined by the separator split back into those three pieces |
| JsText.LeadingWhitespace | src/components/UserSearch.tsx:26 | the length of the maximal whitespace prefix |
| JsText.TrailingWhitespaceStart | src/components/UserSearch.tsx:26 | where the maximal whitespace suffix of a stretch of the string starts: everything from there on is whitespace and the character before it is not |
| JsText.Trim | src/components/UserSearch.tsx:26 | `trim` returns an infix of the input preceded only by whitespace and followed only by whitespace; it is empty exactly when the input is all whitespace, and otherwise neither starts nor ends with whitespace |
| CulturalTypes.RoleNamed | src/types/cultural.ts:1-8 | a name that is recognised is the key of the role it yields |
| CulturalTypes.RoleNameRoundTrip | src/types/cultural.ts:1-8 | every role's key reads back as that role, so distinct roles have distinct keys |
| CulturalTypes.RoleNameHasNoSpace | src/types/cultural.ts:1-8 | role keys contain no space, so they stay single tokens in class lists |
| CulturalThemes.RegistryKeys | src/i18n/cultural-themes.ts:3-271 | the registry has exactly the ten codes as keys, and each entry's `locale` equals its key |
| CulturalThemes.DefaultIsEnglish | src/i18n/cultural-themes.ts:274 | the fallback theme is the "en" record |
| CulturalThemes.SeparatorsDiffer | src/i18n/cultural-themes.ts:5-270 | in every entry the thousands separator differs from the decimal separator |
| CulturalThemes.SeparatorMarks | src/i18n/cultural-themes.ts:5-270 | every entry groups with ",", " " or "." and marks the decimal point with "," or "." |
| CulturalThemes.DateTemplatesRecognised | src/i18n/cultural-themes.ts:5-270 | every entry's date template is one of the four the date formatter names |
| CulturalThemes.LayoutAndIconStyles | src/i18n/cultural-themes.ts:5-270 | an entry is right to left exactly when its key is "ar", and uses the eastern icon style exactly when its key is "zh" or "ja" |
| CulturalThemes.EnglishAndFrenchRules | src/i18n/cultural-themes.ts:17-49 | "en" uses MM/DD/YYYY, "," and ".", symbol before, 12h; "fr" uses DD/MM/YYYY, " " and ",", symbol after, 24h |
| DigitGrouping.DigitRun | src/contexts/CulturalContext.tsx:64 | the length of the maximal digit run at a position |
| DigitGrouping.LookaheadIsRunMultipleOfThree | src/contexts/CulturalContext.tsx:64 | the lookahead `(?=(\d{3})+(?!\d))` holds exactly where the digit run is a positive multiple of three |
| DigitGrouping.RunExact | src/contexts/CulturalContext.tsx:64 | a run of exactly j digits ended by a non-digit or the end has length j |
| DigitGrouping.RunToEnd | src/contexts/CulturalContext.tsx:64 | inside a digit suffix the run reaches the end of the string |
| DigitGrouping.Expand | src/contexts/CulturalContext.tsx:64 | the replacement string is expanded as JavaScript's `replace` does (`$$`, `$&`, `` $` ``, `$'`, `$1`); a string without `$` is inserted as written |
| DigitGrouping.Replacement | src/contexts/CulturalContext.tsx:64 | what is inserted at a match is the expanded separator, which is the separator itself when it holds no `$` |
| DigitGrouping.DollarSeparator | src/contexts/CulturalContext.tsx:64 | the separator "$$" turns "1234" into "1$234": the separator is not always inserted as written |
| DigitGrouping.ReplaceExtends | src/contexts/CulturalContext.tsx:63-66 | the replace of a longer prefix of the text extends the replace of a shorter one |
| DigitGrouping.SignAndFirstDigitKept | src/contexts/CulturalContext.tsx:63-66 | on a negative integer text the replace starts with the sign and the first digit, whatever the separator |
| DigitGrouping.SeparatorPositions | src/contexts/CulturalContext.tsx:63-66 | in a signed integer text the pattern matches exactly at interior digit positions with a positive multiple of three digits to their right, never right after the sign |
| DigitGrouping.ReplaceWithoutMatches | src/contexts/CulturalContext.tsx:63-66 | where nothing matches, the replace copies the text |
| DigitGrouping.ReplaceAgrees | src/contexts/CulturalContext.tsx:63-66 | two texts with the same prefix and the same matches there are replaced alike on that prefix |
| DigitGrouping.InsertSeparatorsGroups | src/contexts/CulturalContext.tsx:63-66 | for a separator without `$`, the replace on a signed digit string equals the sign followed by the digits grouped in threes from the right |
| DigitGrouping.ReplaceGroups | src/contexts/CulturalContext.tsx:63-66 | the same equality for the replace over every position, by induction on the digits |
| DigitGrouping.ShortWithoutSeparators | src/contexts/CulturalContext.tsx:63-66 | integer texts of at most three digits get no separator |
| DigitGrouping.ShorterPrefixAgrees | src/contexts/CulturalContext.tsx:63-66 | dropping the last three digits does not change how the rest is replaced |
| DigitGrouping.GroupStep | src/contexts/CulturalContext.tsx:63-66 | the inductive step of that equality: grouping all digits but the last three, then one separator and the last three |
| DigitGrouping.LastGroup | src/contexts/CulturalContext.tsx:63-66 | beyond three digits, the last three are preceded by exactly one separator and contain none |
| DigitGrouping.LastMatches | src/contexts/CulturalContext.tsx:64 | of the last three digit positions of a signed integer text, the pattern matches only before the first |
| DigitGrouping.ThreeStepReplace | src/contexts/CulturalContext.tsx:63-66 | over three positions of which only the first matches, the replace adds one separator and then the three characters |
| DigitGrouping.KeepDigits | src/contexts/CulturalContext.tsx:63-66 | deleting every non-digit leaves only digits |
| DigitGrouping.KeepDigitsAppend | src/contexts/CulturalContext.tsx:63-66 | deleting non-digits distributes over concatenation |
| DigitGrouping.KeepDigitsOfDigits | src/contexts/CulturalContext.tsx:63-66 | a digit string is left as it is |
| DigitGrouping.GroupDigitsKeepsDigits | src/contexts/CulturalContext.tsx:63-66 | with a digit-free separator, deleting the separators from the grouped digits gives back the original digits |
| DigitGrouping.GroupDigitsShape | src/contexts/CulturalContext.tsx:63-66 | up to three digits are unchanged; longer strings end in a separator and the last three digits; the length grows by one separator per full group; the first digit stays first |
| Formatters.IntegerText | src/contexts/CulturalContext.tsx:62 | an integer's `toString` text is valid, whole, and negative exactly for negative numbers |
| Formatters.FormatNumberShape | src/contexts/CulturalContext.tsx:57-72 | for a thousands separator without `$`, `formatNumber` writes the sign, the integer digits grouped in threes with that separator, then the decimal separator and the unchanged fraction, or nothing after a whole number |
| Formatters.FormatNumberTextOf | src/contexts/CulturalContext.tsx:62-71 | with a known split at ".", the result is the replaced integer part, plus the decimal separator and fraction only when the fraction is non-empty |
| Formatters.SplitNumberText | src/contexts/CulturalContext.tsx:62 | a number's text splits at "." into the signed integer part and, if present, the fraction |
| Formatters.NoGroupingUpToThreeDigits | src/contexts/CulturalContext.tsx:63-71 | a whole number of at most three digits is written with no separator, whatever the separator |
| Formatters.NoSeparatorAfterSign | src/contexts/CulturalContext.tsx:63-66 | a negative number starts with "-" and then its first digit, never a separator, whatever the separator |
| Formatters.FormatNumberKeepsDigits | src/contexts/CulturalContext.tsx:57-72 | with digit-free separators, deleting non-digits from the result gives the integer digits followed by the fraction digits |
| Formatters.Pad2Value | src/contexts/CulturalContext.tsx:78-79 | below 100 a padded field is exactly two digits and reads back as the number |
| Formatters.DateRoundTrip | src/contexts/CulturalContext.tsx:74-94 | under every template, including the fallback, the formatted date read back with that template's layout gives the date |
| Formatters.RenderParse | src/contexts/CulturalContext.tsx:82-93 | each of the three layouts places day, month and year so that all three can be read back |
| Formatters.ReadTwoTwoRest | src/contexts/CulturalContext.tsx:84-88 | the `aa?bb?c` layouts read back as their three fields |
| Formatters.ReadYearMonthDay | src/contexts/CulturalContext.tsx:89-90 | the `y年mm月dd日` layout reads back as its three fields |
| Formatters.CurrencyAmountRecoverable | src/contexts/CulturalContext.tsx:96-104 | "before" puts the symbol directly in front; otherwise a space and the symbol follow; cutting them off gives exactly `formatNumber(amount)` |
| Formatters.CurrencyKeepsDigits | src/contexts/CulturalContext.tsx:96-104 | the currency string holds the amount's digits in order, next to the symbol's digits on the theme's side |
| Formatters.ClassNamesDetermineRole | src/contexts/CulturalContext.tsx:107-121 | each class helper is a fixed prefix followed by the role key, independent of the colours, and the key reads back as the role |
| ColorProjection.DigitPrefix | src/contexts/CulturalContext.tsx:30 | the length of the maximal digit run a string starts with |
| ColorProjection.DigitRuns | src/contexts/CulturalContext.tsx:30 | `match(/\d+/g)` yields non-empty digit strings |
| ColorProjection.DigitRunsKeepDigits | src/contexts/CulturalContext.tsx:30 | the matched runs together hold every digit of the string in order, and nothing else |
| ColorProjection.DigitRunsSkip | src/contexts/CulturalContext.tsx:30 | a digit-free prefix contributes no match |
| ColorProjection.DigitRunsRun | src/contexts/CulturalContext.tsx:30 | a digit run ended by a non-digit or the end is one match |
| ColorProjection.DigitPrefixOfRun | src/contexts/CulturalContext.tsx:30 | a digit run ended by a non-digit or the end is the whole leading run |
| ColorProjection.DigitRunsOfJoin | src/contexts/CulturalContext.tsx:30 | matching again on runs joined by spaces gives the same runs |
| ColorProjection.ProjectionIdempotent | src/contexts/CulturalContext.tsx:28-51 | projecting an already projected colour changes nothing |
| ColorProjection.UndefinedIffNoDigits | src/contexts/CulturalContext.tsx:28-51 | the written value is the text "undefined" exactly when the colour holds no digit |
| ColorProjection.RgbProjection | src/contexts/CulturalContext.tsx:28-31 | a colour `rgb(r, g, b)` is written as "r g b" |
| ColorProjection.RgbRuns | src/contexts/CulturalContext.tsx:30 | the matches in `rgb(r, g, b)` are its three channels |
| ColorProjection.RgbChannelsRecoverable | src/contexts/CulturalContext.tsx:28-51 | the written value splits at spaces into exactly three digit strings that read as r, g and b |
| ColorProjection.PaletteIsRgb | src/i18n/cultural-themes.ts:10-15 | each palette colour is written `rgb(r, g, b)` with three channels from 0 to 255 |
| ColorProjection.RegistryColoursInPalette | src/i18n/cultural-themes.ts:5-270 | every colour of every registered theme is one of the seven palette colours |
| ColorProjection.RgbProjectionDiffers | src/contexts/CulturalContext.tsx:28-51 | the projection of an `rgb` colour is neither the colour itself nor "undefined" |
| ColorProjection.PaletteProjection | src/contexts/CulturalContext.tsx:28-51 | each palette colour projects to its channel list, which is neither the colour nor "undefined" |
| ColorProjection.StyleVarDeterminesRole | src/contexts/CulturalContext.tsx:28-51 | each role's property is "--cultural-" followed by the role key, one of the six names, and it reads back as the role |
| ColorProjection.CulturalStyles | src/contexts/CulturalContext.tsx:155-164 | the hook's map has exactly the six property names, each bound to the role's raw colour |
| ColorProjection.ProjectedStyle | src/contexts/CulturalContext.tsx:28-51 | the provider writes exactly the six property names, each bound to the projection of the role's colour |
| ColorProjection.HookAndRootDiffer | src/contexts/CulturalContext.tsx:28-164 | for a registered theme the root holds the projection of the hook's value for the same name, which is never that value itself nor "undefined" |
| CulturalContext.Resolve | src/contexts/CulturalContext.tsx:55 | resolution is total and always yields a registry entry |
| CulturalContext.ResolveCases | src/contexts/CulturalContext.tsx:21 | a registered code yields its own entry; any other code yields the "en" entry |
| CulturalContext.ResolveKeepsCodeIffRegistered | src/contexts/CulturalContext.tsx:21 | the resolved theme carries the requested code exactly when the code is registered |
| CulturalContext.ResolveIdempotent | src/contexts/CulturalContext.tsx:55 | resolving a resolved theme's code gives the same theme |
| CulturalContext.ResolvedDirection | src/contexts/CulturalContext.tsx:55 | of all codes, exactly "ar" resolves to right to left |
| CulturalContext.ResolvedIconStyle | src/contexts/CulturalContext.tsx:55 | of all codes, exactly "zh" and "ja" resolve to the eastern icon style |
| CulturalContext.ContextFor | src/contexts/CulturalContext.tsx:54-133 | the memoised value's theme is the resolved theme of the locale |
| CulturalContext.ResolvedSeparatorsPlain | src/contexts/CulturalContext.tsx:55-66 | every resolved theme's separators hold no digit, and its thousands separator holds no `$` |
| CulturalContext.ResolvedNumberShape | src/contexts/CulturalContext.tsx:55-72 | under every resolved theme `formatNumber` writes the sign, the digits grouped in threes, then the decimal separator and the fraction, and deleting non-digits gives back the digits |
| CulturalContext.NumberExample | src/contexts/CulturalContext.tsx:57-72 | -1234567.89 is written "-1", sep, "234", sep, "567", decimal separator, "89" |
| CulturalContext.DateExamples | src/contexts/CulturalContext.tsx:78-93 | 25 December 2024 is written 12/25/2024, 25/12/2024, 25.12.2024 or 2024年12月25日 by template, and 25/12/2024 for any other template |
| CulturalContext.UseCultural | src/contexts/CulturalContext.tsx:142-148 | the hook returns the provided value exactly when there is one, otherwise throws the fixed message |
| CulturalContext.UseCulturalStyles | src/contexts/CulturalContext.tsx:151-166 | inside a provider the hook returns the six names bound to the raw colours; outside one it throws |
| CulturalContext.Document.SetBodyAttribute | src/contexts/CulturalContext.tsx:22 | sets one body attribute and leaves the root style alone |
| CulturalContext.Document.SetProperty | src/contexts/CulturalContext.tsx:28-51 | sets one root style property and leaves the body attributes alone |
| CulturalContext.Document.WriteTheme | src/contexts/CulturalContext.tsx:22-51 | tags the body with the theme code and lays the six projected colours over the old root style, so the page shows the theme |
| CulturalContext.Document.ApplyCulturalTheme | src/contexts/CulturalContext.tsx:20-52 | the effect writes the resolved theme: body tag and six projected colours |
| CulturalContext.SixWritesAreProjection | src/contexts/CulturalContext.tsx:28-51 | the six writes in sequence equal laying the projected style over the old one |
| CulturalContext.WritesAreUnion | src/contexts/CulturalContext.tsx:28-51 | six map writes in order equal laying the six entries over the map, later entries winning |
| CulturalContext.ProjectionShown | src/contexts/CulturalContext.tsx:28-51 | after the writes each of the six properties holds its projection |
| CulturalContext.ReapplyOverwrites | src/contexts/CulturalContext.tsx:20-52 | re-running the effect for another theme overwrites all six properties, so the earlier theme leaves no trace |
| CulturalContext.CulturalProvider.constructor | src/contexts/CulturalContext.tsx:16-133 | the new provider's memoised value is that of its locale; the body's `data-cultural-theme` becomes the resolved theme's code, the root style gains the projected colours, and the page shows the resolved theme |
| CulturalContext.CulturalProvider.Consumed | src/contexts/CulturalContext.tsx:135-147 | a consumer inside a provider in its kept state gets the memoised value, whose theme is the resolved one and is the theme the page shows |
| CulturalContext.CulturalProvider.SetLocale | src/contexts/CulturalContext.tsx:20-133 | after a locale change the value follows the new locale; the body's `data-cultural-theme` becomes the new resolved code and the root style gains the new projected colours |
| Locales.Codes | src/i18n.ts:1-8 | the list of codes, one per entry, in order |
| Locales.LanguagesInOrder | src/i18n.ts:1-8 | six entries in the order en, fr, es, ar, pt, zh; the first is English |
| Locales.CodesDistinct | src/i18n.ts:2-7 | no code is listed twice |
| Locales.CodesRegistered | src/i18n.ts:2-7 | every listed code has its own theme entry, so a routed locale never falls back |
| LanguageSwitcher.FindByCodeFirst | src/components/LanguageSwitcher.tsx:17-18 | `find` returns the first entry with the code, and nothing exactly when no entry has it |
| LanguageSwitcher.CurrentLanguageCases | src/components/LanguageSwitcher.tsx:17-18 | a listed code shows its own entry; any other locale shows English |
| LanguageSwitcher.SwitchPath | src/components/LanguageSwitcher.tsx:39-43 | the target always starts with "/", the new locale and "/" |
| LanguageSwitcher.SwitchPathReplacesLocale | src/components/LanguageSwitcher.tsx:39-43 | for "/locale/rest" the target is "/new/rest": only the locale segment changes; nested segments and a trailing slash are kept |
| LanguageSwitcher.SwitchPathBareLocale | src/components/LanguageSwitcher.tsx:40-43 | "/locale" becomes "/new/", with a trailing slash |
| LanguageSwitcher.EntryDirection | src/components/LanguageSwitcher.tsx:82 | an entry is right to left exactly when its code is "ar" |
| LanguageSwitcher.EntryDirectionMatchesTheme | src/components/LanguageSwitcher.tsx:82 | every listed entry's direction agrees with its own theme's direction |
| LanguageSwitcher.LanguageMenu.constructor | src/components/LanguageSwitcher.tsx:11 | the menu starts closed |
| LanguageSwitcher.LanguageMenu.Toggle | src/components/LanguageSwitcher.tsx:49 | the button negates `isOpen` |
| LanguageSwitcher.LanguageMenu.SwitchLanguage | src/components/LanguageSwitcher.tsx:35-44 | choosing a language closes the menu and yields the rewritten path |
| UserApi.BuildRequest | src/services/userApi.ts:7-11 | a GET with JSON accepted and `Accept-Language` equal to the locale |
| UserApi.RequestUrlRoundTrip | src/services/userApi.ts:3-7 | the URL is the base, "/users/" and the unencoded id, which reads back exactly |
| UserApi.ErrorDetailChoice | src/services/userApi.ts:18-23 | the thrown detail is never empty: the first truthy of `detail` and `message`, a missing, null or empty `detail` passed over for a non-empty `message`, else the fixed text |
| UserApi.GetUserOutcomes | src/services/userApi.ts:16-27 | an ok JSON reply returns its body unchanged; a non-ok JSON reply throws its status with the chosen detail; a non-JSON body fails without a status |
| UserSearch.FailureMessages | src/components/UserSearch.tsx:39-43 | a failed lookup shows the client's detail for an HTTP error and the generic text otherwise, so the not-found text is never chosen |
| UserSearch.SearchWidget.constructor | src/components/UserSearch.tsx:13-16 | empty id, not loading, no user, no error |
| UserSearch.SearchWidget.Submit | src/components/UserSearch.tsx:18-34 | clears error and user; a blank id sets the required message and issues no request; otherwise loading starts and the request carries the trimmed id and locale |
| UserSearch.SearchWidget.Complete | src/components/UserSearch.tsx:35-46 | a returned body puts its data on display, a failure its message; loading ends either way |
| UserSearch.SearchWidget.InputChange | src/components/UserSearch.tsx:49-53 | typing sets the id and clears the error; user and loading are untouched |
| UserSearch.SearchWidget.SelectSample | src/components/UserSearch.tsx:133-139 | a sample button sets the id to "1", "2" or "3" and clears the error |
| UserSearch.SearchRoundTrip | src/components/UserSearch.tsx:18-47 | a non-blank search answered by an ok JSON reply shows that reply's user; the card shows exactly when the reply carries a user |
| UserCard.AgeIsCompletedYears | src/components/UserCard.tsx:16-30 | the age is the number of completed years: that anniversary is reached, the next one is not |
| UserCard.AgeUnique | src/components/UserCard.tsx:16-30 | no other count satisfies the completed-years characterisation |
| UserCard.AnniversaryMonotone | src/components/UserCard.tsx:16-30 | reaching an anniversary means every earlier one was reached |
| UserCard.AgeAroundYearDifference | src/components/UserCard.tsx:19-27 | the age is the year difference or one less, and on the birthday itself the year difference |
| UserCard.HexValue | src/components/UserCard.tsx:45 | a hexadecimal digit's value is below 16 |
| UserCard.DigitPrefixLength | src/components/UserCard.tsx:45 | `parseInt` reads the maximal prefix of digits of the selected radix |
| UserCard.MagnitudeOfDigits | src/components/UserCard.tsx:45 | a non-empty decimal digit string reads as its decimal value |
| UserCard.ParseIntCanonical | src/components/UserCard.tsx:45 | a decimal id without a leading zero parses to its value, whose text is the id again |
| UserCard.InsertSeparatorsWithoutDigits | src/components/UserCard.tsx:45 | a text without digits passes through the grouping replace unchanged |
| UserCard.UnparsableIdShowsNaN | src/components/UserCard.tsx:45 | an id that does not parse is shown as "NaN" |
| UserCard.CanonicalIdText | src/components/UserCard.tsx:45 | a canonical decimal id is formatted as the whole number its digits write |
| UserCard.CanonicalIdDisplay | src/components/UserCard.tsx:45 | a canonical id is shown grouped in threes with the theme's separator: unchanged up to three digits, and the same digits in order |
| UserCard.RenderCard | src/components/UserCard.tsx:37-39 | the card's direction is the theme's layout direction |
| UserCard.CardDirection | src/components/UserCard.tsx:37-39 | under the provider's value for a locale, the card is right to left exactly when the locale is "ar" |
| UserCard.CardDatesReadBack | src/components/UserCard.tsx:89-101 | both dates on the card, formatted by the theme's template, read back as the user's dates |
| CulturalAlert.IconsByLocale | src/components/CulturalAlert.tsx:23-44 | by locale code: no icon when icons are off; eastern symbols exactly for "zh" and "ja"; the celebration for success exactly under "zh"; a bullet for the two roles without an icon |
| CulturalAlert.FeedbackIconsDistinct | src/components/CulturalAlert.tsx:28-40 | within one theme, error, warning, success and info get four different icons |
| CulturalAlert.ErrorAndWarningShareASymbol | src/components/CulturalAlert.tsx:29-32 | the eastern error icon is the western warning icon |
| CulturalAlert.AlertClassTokens | src/components/CulturalAlert.tsx:47-49 | the class string is the three classes `bg-cultural-<role>-light`, `border`, `border-cultural-<role>-light` |
| CulturalAlert.ThreeClasses | src/components/CulturalAlert.tsx:48 | a string of three space-free classes splits into those classes |
| CulturalAlert.AlertClassesDetermineRole | src/components/CulturalAlert.tsx:47-49 | different roles give different alert classes |
| CulturalAlert.ShownVariableReads | src/components/CulturalAlert.tsx:60-61 | on a page showing a theme, the role's `var(--cultural-<role>)` reads the role's projected colour |
| CulturalAlert.StyleResolves | src/components/CulturalAlert.tsx:58-62 | for an `rgb(r, g, b)` colour both style colours resolve to `rgb(r g b / 0.1)` and `rgb(r g b / 0.3)` |
| CulturalAlert.StyleDirection | src/components/CulturalAlert.tsx:59 | the alert is right to left exactly for "ar" |
| CulturalButton.DefaultsFillOnlyOmitted | src/components/CulturalButton.tsx:17-25 | given props are kept; omitted ones become primary, solid, md, enabled, no extra class |
| CulturalButton.SizeFallback | src/components/CulturalButton.tsx:28-39 | an unknown size gets the md classes; the three sizes have three different class strings |
| CulturalButton.VariantFallback | src/components/CulturalButton.tsx:41-52 | an unknown variant gets the solid classes |
| CulturalButton.VariantClassesSpaceFree | src/components/CulturalButton.tsx:41-52 | no class in a variant's class list contains a space |
| CulturalButton.VariantClassTokens | src/components/CulturalButton.tsx:41-52 | the class string splits back into its classes: solid starts with the role's background, outline's second class is the role's border, ghost starts with the role's text colour |
| CulturalButton.VariantDeterminesRole | src/components/CulturalButton.tsx:44-50 | within a variant the classes determine the role |
| CulturalButton.ButtonDirection | src/components/CulturalButton.tsx:65-67 | whatever its props, a button is laid out right to left exactly when the locale is "ar" |
| CulturalButton.DefaultButton | src/components/CulturalButton.tsx:17-67 | a button with no props is md, solid primary and enabled, and right to left exactly under "ar" |

## Left out

- DOM writes are modelled as updates of two maps, the body attributes and the root style. The click-outside handler of the language switcher is a DOM event listener and is not modelled.
- React and next-intl machinery is not modelled. That covers contexts, `useMemo`, `useEffect`, router navigation, translations and JSX markup. The locale is an input; translated texts are opaque strings; the navigation target is returned.
- The pure markup components, `src/i18n/routing.ts` and the page layouts are not part of this model.
- `routing.ts` declares "fr" as its default locale while the theme fallback is "en". Only the theme fallback is modelled.
- `num.toString()` on doubles is not modelled. A number is the decimal text it would produce: a sign, integer digits and fraction digits. Exponent forms, `NaN` from arithmetic and `Infinity` are out of scope.
- Date objects, parsing and time zones are not modelled. A date is the calendar fields the local getters return, and "today" is a parameter.
- The network round trip and `console` calls are left out. What `fetch` and `response.json()` produced is a parameter (`Reply`).
- The race where a late lookup reply overwrites newer widget state is not modelled, because it needs asynchronous interleaving.
- Registry lookups of JavaScript prototype keys (such as "constructor") are not modelled; the registry is a finite map over the ten codes.
- The JSON body is reduced to `detail`, `message` and `data`. A non-string or falsy `detail`/`message` is `None`.
- UserCard.ParseIntCanonical, UserCard.CanonicalIdText, UserCard.CanonicalIdDisplay: `parseInt` is modelled over unbounded integers, so precision loss above 2^53 and exponent output of `toString` for huge ids are not captured.
- Formatters.DateRoundTrip: stated for years from 0 and for months and days below 100. Negative years and three-digit days would not read back with fixed-width fields.
- ParseDate is an independent reader written for the round trip; the application has no date parser of its own.
- The alert and button class strings are template literals spanning several lines. They are modelled as lists of class tokens, so the newlines and indentation between classes are not modelled.
- UserSearch.SearchWidget.Submit: requires that no lookup is pending, because the submit button and the input are disabled while loading.
- UserSearch.SearchWidget.InputChange: requires that no lookup is pending, because the input is disabled while loading.
- Formatters.FormatNumberShape, Formatters.FormatNumberKeepsDigits, Formatters.CurrencyKeepsDigits, DigitGrouping.InsertSeparatorsGroups, CulturalContext.NumberExample, UserCard.CanonicalIdDisplay: stated for thousands separators without `$`. `replace` expands `$` patterns in its replacement text, and `DigitGrouping.InsertSeparators` models that expansion, so a separator such as "$$" or "$1" is not inserted as written (`DigitGrouping.DollarSeparator`). Every registered separator qualifies (`CulturalContext.ResolvedNumberShape`).
- CulturalAlert.StyleResolves: stated for colours written `rgb(r, g, b)`, as every registered colour is. A colour without digits would project to the text "undefined".
- The button's `children` and `onClick` props and the alert's `message` are passed through to markup unchanged and are not modelled.
