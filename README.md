# FoodRecords: remaining-days window and home list, in Dafny

This project models the two pieces of logic in the FoodRecords Android app's UI layer.

- **The food card** (`FoodInfoCard.kt`). `RemainingDaysWindow` takes the signed number of days
  until a record expires. It labels the record *valid* while that number is positive and
  *expired* otherwise, including day 0. Under the label it shows the number's magnitude,
  or the literal `99+` once the magnitude passes 99. The card also keeps some click-driven
  state. The info icon exists only when the record the card was first composed with has tips. Clicking it toggles the tips
  card, and clicking the tips card closes it. The "more" button opens a menu, and the menu
  closes when it is dismissed or when its delete item is chosen.
- **The home view model** (`HomeViewModel.kt`). It holds one read-only `List` snapshot of the
  record list, which starts with a single placeholder record. `updateList(value)` publishes
  a copy with `value` appended. `updateList(list)` publishes `list` in its place.

Modules:
- `Entities` holds the `FoodInfo` record.
- `Decimal` renders a natural number as a decimal numeral (`toString` on a non-negative
  `Int`) and reads it back.
- `KotlinInt` holds Kotlin's 32-bit `Int`: its wrap-around, `absoluteValue`, unary minus and
  `toString`.
- `FoodInfoCard` holds the window rule (`Classify`, `DisplayText`, `RemainingDaysWindow`) and
  the class `CardState` for the card's remembered state.
- `HomeViewModel` holds the class `HomeViewModel`, whose field `foodInfoList` is a `seq`
  that both update methods reassign.

The window rule works on an unbounded `int`. `DisplayTextAsWritten` is the same rule,
assuming the day count is a Kotlin 32-bit `Int`. On that reading it differs only at
`Int.MIN_VALUE` (see Findings).

## Model

| member | source | states |
|---|---|---|
| `FoodInfoCard.Classify` | app/src/main/java/lying/fengfeng/foodrecords/ui/components/FoodInfoCard.kt:289-337 | a record is labelled valid exactly when `remainingDays > 0`; every other value, 0 included, is labelled expired |
| `FoodInfoCard.DisplayText` | app/src/main/java/lying/fengfeng/foodrecords/ui/components/FoodInfoCard.kt:308-347 | in both branches the number text is `99+` when the magnitude exceeds 99, and otherwise the decimal of the magnitude; it never holds a minus sign and is at most three characters long |
| `FoodInfoCard.RemainingDaysWindow` | app/src/main/java/lying/fengfeng/foodrecords/ui/components/FoodInfoCard.kt:289-357 | the window is labelled valid exactly when `remainingDays > 0`, and its number is the capped-magnitude text |
| `FoodInfoCard.CappedBeyondNinetyNine` | app/src/main/java/lying/fengfeng/foodrecords/ui/components/FoodInfoCard.kt:289-347 | more than 99 days left shows valid `99+`; more than 99 days past shows expired `99+` |
| `FoodInfoCard.ValidShowsDays` | app/src/main/java/lying/fengfeng/foodrecords/ui/components/FoodInfoCard.kt:289-314 | with 1 to 99 days left, the window is labelled valid and shows the decimal of the day count itself |
| `FoodInfoCard.ExpiredShowsDaysSince` | app/src/main/java/lying/fengfeng/foodrecords/ui/components/FoodInfoCard.kt:323-347 | with -99 to 0 days, the window is labelled expired and shows the decimal of the negated count; day 0 shows `0` |
| `FoodInfoCard.DisplayTextRange` | app/src/main/java/lying/fengfeng/foodrecords/ui/components/FoodInfoCard.kt:308-347 | every number text is `99+` or the decimal of some count between 0 and 99 |
| `FoodInfoCard.SignSymmetry` | app/src/main/java/lying/fengfeng/foodrecords/ui/components/FoodInfoCard.kt:289-347 | `d` and `-d` show the same text; for `d != 0` their labels differ, so the label alone carries the sign |
| `FoodInfoCard.DisplayTextDistinguishes` | app/src/main/java/lying/fengfeng/foodrecords/ui/components/FoodInfoCard.kt:308-347 | two day counts show the same text if and only if they have the same magnitude or both exceed 99 in magnitude |
| `FoodInfoCard.WindowExamples` | app/src/main/java/lying/fengfeng/foodrecords/ui/components/FoodInfoCard.kt:289-357 | 150 days gives valid `99+`; -150 gives expired `99+`; 50 gives valid `50`; 5 gives valid `5`; -1 gives expired `1`; 0 gives expired `0` |
| `FoodInfoCard.DisplayTextAsWritten` | app/src/main/java/lying/fengfeng/foodrecords/ui/components/FoodInfoCard.kt:308-347 | on a 32-bit `Int` day count, the code's text equals the capped-magnitude rule for every value except `Int.MIN_VALUE`, where it is `-2147483648` |
| `FoodInfoCard.AsWrittenAgrees` | app/src/main/java/lying/fengfeng/foodrecords/ui/components/FoodInfoCard.kt:308-347 | on 32-bit `Int`, the code's text equals the unbounded rule's text for every value except `Int.MIN_VALUE` |
| `FoodInfoCard.CardState.constructor` | app/src/main/java/lying/fengfeng/foodrecords/ui/components/FoodInfoCard.kt:79-83 | the info icon is shown exactly when the record's tips are non-empty; the tips card and the menu start closed |
| `FoodInfoCard.CardState.Recompose` | app/src/main/java/lying/fengfeng/foodrecords/ui/components/FoodInfoCard.kt:71-83 | composing the card with another record changes the record it shows, and keeps the remembered `tipsButtonShown`, `tipsShown` and `dropDownMenuExpanded` |
| `FoodInfoCard.CardState.ClickInfoIcon` | app/src/main/java/lying/fengfeng/foodrecords/ui/components/FoodInfoCard.kt:102-111 | a click on the icon negates `tipsShown`, so two clicks restore it; the tips card stays closed when the first record had no tips |
| `FoodInfoCard.CardState.ClickTipsCard` | app/src/main/java/lying/fengfeng/foodrecords/ui/components/FoodInfoCard.kt:255 | a click on the tips card always sets `tipsShown` to false |
| `FoodInfoCard.CardState.ClickMoreButton` | app/src/main/java/lying/fengfeng/foodrecords/ui/components/FoodInfoCard.kt:197-200 | the "more" button opens the menu |
| `FoodInfoCard.CardState.DismissMenu` | app/src/main/java/lying/fengfeng/foodrecords/ui/components/FoodInfoCard.kt:206-208 | dismissing the menu closes it |
| `FoodInfoCard.CardState.ChooseDelete` | app/src/main/java/lying/fengfeng/foodrecords/ui/components/FoodInfoCard.kt:219-228 | the delete item closes the menu and hands the record of the latest composition to the removal (the click handler captures the current parameter) |
| `Decimal.NatToString` | app/src/main/java/lying/fengfeng/foodrecords/ui/components/FoodInfoCard.kt:312 | `toString` of a non-negative value is a non-empty string of digits with no leading zero |
| `Decimal.ParseNatToString` | app/src/main/java/lying/fengfeng/foodrecords/ui/components/FoodInfoCard.kt:312 | reading the numeral back gives the number |
| `Decimal.NatToStringInjective` | app/src/main/java/lying/fengfeng/foodrecords/ui/components/FoodInfoCard.kt:312 | two numbers have the same numeral if and only if they are equal |
| `Decimal.NatToStringWidth` | app/src/main/java/lying/fengfeng/foodrecords/ui/components/FoodInfoCard.kt:309-313 | counts below 10 take one digit and counts from 10 to 99 take two |
| `KotlinInt.Negate` | app/src/main/java/lying/fengfeng/foodrecords/ui/components/FoodInfoCard.kt:345 | unary minus is exact on every `Int` except `Int.MIN_VALUE`, which is its own negation |
| `KotlinInt.AbsoluteValue` | app/src/main/java/lying/fengfeng/foodrecords/ui/components/FoodInfoCard.kt:309 | `absoluteValue` is exact on every `Int` except `Int.MIN_VALUE`, whose absolute value is itself and negative |
| `KotlinInt.Wrap` | app/src/main/java/lying/fengfeng/foodrecords/ui/components/FoodInfoCard.kt:345 | 32-bit arithmetic: the result lies in the `Int` range and differs from the exact result by a multiple of 2^32 |
| `KotlinInt.IntToString` | app/src/main/java/lying/fengfeng/foodrecords/ui/components/FoodInfoCard.kt:345 | `toString` starts with a minus sign exactly for negative values; after it comes a numeral with no leading zero whose value is the magnitude, and a non-negative value is its plain numeral |
| `HomeViewModel.HomeViewModel.constructor` | app/src/main/java/lying/fengfeng/foodrecords/ui/home/HomeViewModel.kt:11-12 | the list starts with exactly one placeholder record |
| `HomeViewModel.HomeViewModel.UpdateListAppend` | app/src/main/java/lying/fengfeng/foodrecords/ui/home/HomeViewModel.kt:14-16 | the new list is the old one with `value` appended: one longer, `value` last, earlier records unchanged and in order; a record already present is added again (its multiplicity grows by one) |
| `HomeViewModel.HomeViewModel.UpdateListReplace` | app/src/main/java/lying/fengfeng/foodrecords/ui/home/HomeViewModel.kt:18-20 | the list becomes exactly `list`, and the previous contents are discarded |

## Findings

| source | as written | input that shows it | evidently intended | confidence | as-written member | corrected member |
|---|---|---|---|---|---|---|
| app/src/main/java/lying/fengfeng/foodrecords/ui/components/FoodInfoCard.kt:341-346 | `it.absoluteValue > 99` is false for `Int.MIN_VALUE`, because `absoluteValue` wraps to a negative number. The branch then prints `(-it).toString()`, and `-it` wraps too. | `remainingDays == Int.MIN_VALUE` shows `-2147483648` | show `99+` for every magnitude above 99, and never a minus sign | low: not executed; it assumes `DateUtil.getRemainingDays` returns an `Int` and can return `Int.MIN_VALUE`, and that helper is not part of this model | `FoodInfoCard.DisplayTextAsWritten` | `FoodInfoCard.DisplayText` |

## Left out

- `DateUtil.getRemainingDays` and the parsing of dates and shelf-life strings are not part of this model. The remaining-days count is an input.
- The source of the entity class `FoodInfo` is not shown. Its model is a datatype whose fields follow the app's data model, in that order. The placeholder record passes five constructor arguments, so its `tips` and `foodType` are taken to be empty (the defaults are not visible).
- Room persistence (`FoodTypeInfoDao`): its insert, query and delete behaviour lives in the Room library.
- The delete flow after `ChooseDelete` is left out: the photo-file check-and-delete on a background coroutine, then `appViewModel.removeFoodInfo`. Both are I/O and concurrency, and the view model they call is not part of this model.
- Photo loading (`LaunchedEffect`, `ImageUtil.preProcessImage`, the hand-off to the main thread) is background I/O.
- `AppRepo.getPicturePath` and `FoodRecordsAppViewModel` are not part of this model.
- Layout and styling are left out: padding, shadows, fonts and animation. The green and red colours only repeat the label, which `Status` already models.
- Localized strings are left out. `valid_in` and `expired` become the labels `ValidIn` and `Expired`. The `shelf_life_day` suffix is fixed text and is not modelled.
- Compose observation is left out: recomposition when `mutableStateOf` changes, and how long `remember` keeps state.
- `FoodInfoCard.CardState.constructor`: "the info icon is shown exactly when the tips are non-empty" holds for the record the card was first composed with. The remembered values are not keyed on the record, so after a composition with a different record (`Recompose`, for example when a list slot is reused after a deletion) `tipsButtonShown` and `tipsShown` keep their old values and may not match the new record's tips.
- `FoodInfoCard.DisplayTextAsWritten`: the 32-bit `Int` type of the day count is an assumption, because `DateUtil.getRemainingDays` is not part of this model. If it returns a `Long`, the same wrap happens at `Long.MIN_VALUE`, and the text there is `-9223372036854775808`.
- The copy that `updateList(value)` builds: each snapshot is a Dafny `seq` value, so the mutable copy that `toMutableList()` makes is a local value and not an in-place buffer.
- `HomeViewModel.HomeViewModel.UpdateListReplace`: the source stores the caller's `List` by reference. If the caller passes a `MutableList` and mutates it later, the state changes without a new value being published. The model stores a `seq` value and does not capture this aliasing.
