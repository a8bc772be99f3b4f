# Partner list and partner form

A model of the two windows of a small partner-management desktop application.

**The main window** reads six tables: partners, partner names, partner types, director names, partner-product links and products. It joins them in memory and shows one record per partner:
- the resolved type, name and director, with the placeholder "Не указано" where a lookup fails;
- the address, phone and rating;
- one priced line per ordered product;
- the rounded order total.

The price of a line is amount × minimum cost, less the partner's discount. The discount is half the rating in percent, truncated, and at most 15%. A line never costs less than zero.

**The edit window** checks the form before saving. There are eleven checks, and the first one that fails is reported with its own message. The window then copies the form into the partner entity and into its director and partner-name entities:
- the texts are trimmed;
- the rating is copied only when it parses;
- name records that do not exist yet are created.

The digit filters on the rating and INN boxes are modelled too.

The project has six modules:
- `Nullable`: `Option` and `??`.
- `DecimalMath`: C# `decimal` as `real`, `int / 2` truncated toward zero, and `Math.Round(x, 2)` with halves to even.
- `Text`: .NET white space, `string.Trim`, `string.IsNullOrWhiteSpace`, and `int.TryParse` / `int.ToString`.
- `EmailPattern`: the e-mail regular expression `^[^@\s]+@[^@\s]+\.[^@\s]+$`, written as a finite automaton and proved equal to a plain description of an address.
- `PartnerList`: the main window.
- `PartnerForm`: the edit window, including the entity classes, which the update changes in place.

## Model

| member | source | states |
|---|---|---|
| PartnerList.CalculateDiscount | mdk0401_pr1/MainWindow.xaml.cs:142-145 | The discount is at most 15%. It is non-negative for a non-negative rating. It is exactly 15% iff the rating is at least 30. Below the cap it is the truncated half of the rating, in percent. |
| PartnerList.DiscountMonotone | mdk0401_pr1/MainWindow.xaml.cs:142-145 | A higher rating never earns a smaller discount. |
| PartnerList.DiscountExamples | mdk0401_pr1/MainWindow.xaml.cs:142-145 | Ratings 0, 1, 10, 11, 29, 30, 31 and 100 give 0, 0, 5, 5, 14, 15, 15 and 15 percent. A negative rating gives a negative discount (-3 gives -1%). |
| PartnerList.LineCost | mdk0401_pr1/MainWindow.xaml.cs:78-82 | A line's cost is never negative. It is either the discounted amount × minimum cost or zero, and it is zero only when the discounted cost is not positive. |
| PartnerList.LineCostBounds | mdk0401_pr1/MainWindow.xaml.cs:78-82 | With non-negative amount, cost and rating, a line costs between 85% and 100% of amount × minimum cost. |
| PartnerList.FirstIndexById | mdk0401_pr1/MainWindow.xaml.cs:60-62 | `FirstOrDefault` by id: the index found holds the id and no earlier row does. When nothing is found, no row holds the id. |
| PartnerList.LinksOf | mdk0401_pr1/MainWindow.xaml.cs:65-67 | `Where` by partner id: every selected link belongs to the partner and comes from the table, and every link of the partner is selected. |
| PartnerList.LinksOfAppend | mdk0401_pr1/MainWindow.xaml.cs:65-67 | The filter keeps the links in table order: it distributes over concatenation. |
| PartnerList.FirstById | mdk0401_pr1/MainWindow.xaml.cs:60-62 | `FirstOrDefault` by id: the row at the index `PartnerList.FirstIndexById` finds, or none. |
| PartnerList.NameOf | mdk0401_pr1/MainWindow.xaml.cs:60 | The partner-name row with the partner's name id, the first one when several match. A definition over `PartnerList.FirstById`. |
| PartnerList.TypeOf | mdk0401_pr1/MainWindow.xaml.cs:61 | The partner-type row with the partner's type id. A definition; `PartnerList.LoadPartners` performs this lookup and, as in the window, does not use its result. |
| PartnerList.DirectorOf | mdk0401_pr1/MainWindow.xaml.cs:62 | The director row with the partner's director id. A definition over `PartnerList.FirstById`. |
| PartnerList.ProductOf | mdk0401_pr1/MainWindow.xaml.cs:75 | The product of a link: the first product row with the link's product id. A definition; `PartnerList.FoundProductCost` states its property. |
| PartnerList.LineFor | mdk0401_pr1/MainWindow.xaml.cs:84-89 | The display line of a link: the product's name, the link's amount and the line cost rounded to cents. A definition. |
| PartnerList.Lines | mdk0401_pr1/MainWindow.xaml.cs:73-93 | The display lines of a partner's links: at most one per link, and no shown cost is negative. `PartnerList.PriceLinks` is proved to compute exactly these. |
| PartnerList.RawTotal | mdk0401_pr1/MainWindow.xaml.cs:71-91 | The unrounded sum of the line costs is never negative. `PartnerList.RawTotalBounds` bounds it further. |
| PartnerList.TypeNameOf | mdk0401_pr1/MainWindow.xaml.cs:98 | `partner.PartnerTypes?.Type ?? "Не указано"`. A definition; `PartnerList.RecordFields` states it for each record. |
| PartnerList.PartnerNameText | mdk0401_pr1/MainWindow.xaml.cs:99 | `partnerName?.Name ?? "Не указано"`. A definition; `PartnerList.RecordFields` states it for each record. |
| PartnerList.DirectorText | mdk0401_pr1/MainWindow.xaml.cs:103 | `directorName?.Name ?? "Не указано"`, the director's given name only. A definition; `PartnerList.RecordFields` states it for each record. |
| PartnerList.DisplayFor | mdk0401_pr1/MainWindow.xaml.cs:60-106 | The display record of one partner. A definition; `PartnerList.RecordFields` and `PartnerList.TotalCost` state its fields. |
| PartnerList.Aggregate | mdk0401_pr1/MainWindow.xaml.cs:56-107 | The whole list: exactly one record per partner, in the partners' order, carrying that partner's id, with a non-negative total. `PartnerList.LoadPartners` is proved to compute exactly this list. |
| PartnerList.PriceLinks | mdk0401_pr1/MainWindow.xaml.cs:73-93 | The inner loop yields exactly the lines of the links whose product is found, in order, and the sum of their unrounded costs. |
| PartnerList.LoadPartners | mdk0401_pr1/MainWindow.xaml.cs:56-107 | The loop over the partners yields exactly the aggregate list: one display record per partner, in order. |
| PartnerList.RecordFields | mdk0401_pr1/MainWindow.xaml.cs:95-106 | Each record carries the partner's id, address, phone and rating unchanged. The type comes from the partner's own type relation, or is the placeholder. The name and the director come from the first row with the referenced id, or are the placeholder when no row exists or its name is null. |
| PartnerList.LinesAppend | mdk0401_pr1/MainWindow.xaml.cs:73-93 | The lines and the raw total of consecutive runs of links add up. |
| PartnerList.MissingProductAddsNothing | mdk0401_pr1/MainWindow.xaml.cs:75-76 | A link whose product is unknown adds no line and nothing to the total. |
| PartnerList.RawTotalNearShownCosts | mdk0401_pr1/MainWindow.xaml.cs:88-91 | The unrounded total differs from the sum of the rounded line costs by at most half a cent per line. |
| PartnerList.TotalCost | mdk0401_pr1/MainWindow.xaml.cs:82-104 | The shown total is never negative and is in whole cents. It is within half a cent per line, plus half a cent, of the sum of the shown line costs. |
| PartnerList.TotalIsNotSumOfShownCosts | mdk0401_pr1/MainWindow.xaml.cs:88-104 | Two lines of half a cent each show 0.00, yet the total shows 0.01, because the total adds the unrounded costs. |
| PartnerList.RawTotalBounds | mdk0401_pr1/MainWindow.xaml.cs:78-91 | With non-negative amounts, costs and rating, the raw total lies between 85% and 100% of the undiscounted total. |
| PartnerList.RawTotalBoundsStep | mdk0401_pr1/MainWindow.xaml.cs:75-91 | Adding one more link keeps the 85%–100% bounds. |
| PartnerList.FoundProductCost | mdk0401_pr1/MainWindow.xaml.cs:75-76 | A product found for a link is a product row, so it has that row's non-negative cost. |
| PartnerList.LastLinkFound | mdk0401_pr1/MainWindow.xaml.cs:75-91 | A last link with a known product adds its gross amount and its line cost to the two totals. |
| PartnerList.LastLinkMissing | mdk0401_pr1/MainWindow.xaml.cs:75-76 | A last link with an unknown product changes neither the gross total nor the raw total. |
| PartnerList.FoundLineBounds | mdk0401_pr1/MainWindow.xaml.cs:78-91 | Adding one priced line to totals within the 85%–100% bounds keeps them within those bounds. |
| PartnerList.ClampedIsLineCost | mdk0401_pr1/MainWindow.xaml.cs:78-82 | The loop's three steps (multiply, apply the discount, clamp at zero) give exactly the line cost. |
| PartnerList.PricedStep | mdk0401_pr1/MainWindow.xaml.cs:73-93 | One more link adds its line and its cost when its product is found, and nothing otherwise. |
| PartnerList.WorkedExample | mdk0401_pr1/MainWindow.xaml.cs:56-107 | At rating 10, 2 × 10.00 and 1 × 5.00 are shown as 19.00 and 4.75, with total 23.75. A partner without name and director rows shows the placeholder. |
| PartnerList.ExamplePricing | mdk0401_pr1/MainWindow.xaml.cs:73-93 | The worked example's lines and its unrounded total 23.75. |
| PartnerList.ExampleLineCosts | mdk0401_pr1/MainWindow.xaml.cs:78-89 | At rating 10, 2 × 10.00 costs 19.00 and 1 × 5.00 costs 4.75. |
| DecimalMath.HalfTowardZero | mdk0401_pr1/MainWindow.xaml.cs:144 | `rate / 2` truncates toward zero: the remainder has the sign of the rating and is less than 2 in magnitude. |
| DecimalMath.RoundHalfEven | mdk0401_pr1/MainWindow.xaml.cs:88 | The nearest integer; on a tie, the even one. |
| DecimalMath.RoundHalfEvenUnique | mdk0401_pr1/MainWindow.xaml.cs:88 | Those two properties determine the rounded integer. |
| DecimalMath.Round2 | mdk0401_pr1/MainWindow.xaml.cs:88 | `Math.Round(x, 2)` is within half a cent of x, is in whole cents, and is non-negative for non-negative x. When x lies exactly half a cent from the result, the result is an even number of cents (halves go to the even neighbour). |
| DecimalMath.CentsNear | mdk0401_pr1/MainWindow.xaml.cs:88 | A whole number of cents within half a cent of x is within 0.005 of x, is in whole cents, and is non-negative for non-negative x. It is exactly 0.005 from x iff the cent count is exactly half a cent from 100·x, so a tie in cents is a tie in the value. |
| DecimalMath.Round2OfCents | mdk0401_pr1/MainWindow.xaml.cs:104 | A value already in whole cents is unchanged by rounding. |
| DecimalMath.Round2Monotone | mdk0401_pr1/MainWindow.xaml.cs:104 | Rounding keeps order. |
| DecimalMath.Round2Examples | mdk0401_pr1/MainWindow.xaml.cs:88 | 0.005 rounds to 0.00; 0.015 and 0.025 both round to 0.02; -0.025 rounds to -0.02. |
| Nullable.Coalesce | mdk0401_pr1/MainWindow.xaml.cs:98-103 | `o ?? fallback`: the value when there is one, the fallback otherwise. A definition; `PartnerList.RecordFields` states what it yields for each record's type, name and director. |
| Text.TrimStartBy | mdk0401_pr1/PartnerEditWindow.xaml.cs:251 | The result is a suffix of the input. Only white characters were removed, and it does not start with one. It is empty iff the input is all white. |
| Text.TrimEndBy | mdk0401_pr1/PartnerEditWindow.xaml.cs:251 | The result is a prefix of the input. Only white characters were removed, and it does not end with one. It is empty iff the input is all white. |
| Text.TrimBy | mdk0401_pr1/PartnerEditWindow.xaml.cs:251-254 | Leading and then trailing characters of a class are dropped. `Text.Trim` uses it with .NET white space; `int.TryParse` at line 140 uses it with the white space number parsing skips. A definition; `Text.TrimStartBy` and `Text.TrimEndBy` state its properties. |
| Text.IsWhiteSpace | mdk0401_pr1/PartnerEditWindow.xaml.cs:110 | `char.IsWhiteSpace`, which is also the regular-expression class `\s`: U+0009..U+000D, U+0085, and the Unicode space, line and paragraph separators. A definition; `Text.TrimEnds` and `EmailPattern.Step` state what depends on it. |
| Text.IsBlank | mdk0401_pr1/PartnerEditWindow.xaml.cs:110 | `string.IsNullOrWhiteSpace` of a text-box text: every character is white space. A definition; `Text.TrimEnds` proves that it holds exactly when `Trim` gives the empty text. |
| Text.Trim | mdk0401_pr1/PartnerEditWindow.xaml.cs:251-254 | `string.Trim()`: the leading and then the trailing white space are dropped. A definition; `Text.TrimStartBy`, `Text.TrimEndBy`, `Text.TrimEnds` and `Text.TrimIdempotent` state its properties. |
| Text.TrimEnds | mdk0401_pr1/PartnerEditWindow.xaml.cs:251-254 | `Trim` leaves no white space at either end. It is empty exactly when the text is blank (`IsNullOrWhiteSpace`). |
| Text.TrimByUnchanged | mdk0401_pr1/PartnerEditWindow.xaml.cs:251-254 | A text whose ends are not white is unchanged by trimming. |
| Text.TrimByDropsTrailing | mdk0401_pr1/PartnerEditWindow.xaml.cs:253 | Trimming removes the white characters appended to such a text, and nothing else. |
| Text.TrimNoWhiteSpace | mdk0401_pr1/PartnerEditWindow.xaml.cs:254 | A text without white space is unchanged by trimming. |
| Text.TrimIdempotent | mdk0401_pr1/PartnerEditWindow.xaml.cs:251-254 | Trimming twice is trimming once. |
| Text.DigitValue | mdk0401_pr1/PartnerEditWindow.xaml.cs:140 | A digit's value is below 10. |
| Text.DigitChar | mdk0401_pr1/PartnerEditWindow.xaml.cs:140 | The digit for a value below 10 is a digit with that value. |
| Text.IsDigit | mdk0401_pr1/PartnerEditWindow.xaml.cs:192 | `char.IsDigit`, restricted to '0'..'9'. A definition (see "## Left out"). |
| Text.IsParseWhite | mdk0401_pr1/PartnerEditWindow.xaml.cs:140 | The white space `int.TryParse` skips: U+0009..U+000D and the space. A definition; `Text.ParseSkipsSpaces` states what it does. |
| Text.DigitsValue | mdk0401_pr1/PartnerEditWindow.xaml.cs:140 | The value of a digit string, most significant digit first. A definition; `Text.NatToDigits` and `Text.ParseDigits` tie it to printing and parsing. |
| Text.TryParseInt32 | mdk0401_pr1/PartnerEditWindow.xaml.cs:140 | `int.TryParse` succeeds only with a value in the 32-bit range. |
| Text.ParseSignedDigits | mdk0401_pr1/PartnerEditWindow.xaml.cs:140 | Parsing the text once it is trimmed gives only 32-bit values. |
| Text.ParseDigits | mdk0401_pr1/PartnerEditWindow.xaml.cs:140 | A non-empty digit string that fits in 32 bits parses to its value. |
| Text.NatToDigits | mdk0401_pr1/PartnerEditWindow.xaml.cs:88 | The printer behind `Rate.ToString()`, which fills the rating box: the decimal digits of a number, non-empty, all digits, and with that value. `Text.ParseOfToString` proves that parsing inverts it. |
| Text.Int32ToString | mdk0401_pr1/PartnerEditWindow.xaml.cs:88 | `Rate.ToString()`: the printed form of an integer, a '-' before the digits of a negative one, is never empty. `Text.ParseOfToString` proves that parsing inverts it. |
| Text.ParseOfToString | mdk0401_pr1/PartnerEditWindow.xaml.cs:256 | Printing a 32-bit integer and parsing it back gives the same integer. |
| Text.ParseOfNegative | mdk0401_pr1/PartnerEditWindow.xaml.cs:256 | A negative 32-bit integer printed with its minus sign parses back to itself. |
| Text.ParseRejectsNonDigit | mdk0401_pr1/PartnerEditWindow.xaml.cs:140 | A character that is neither a digit nor a leading sign makes parsing fail. |
| Text.ParseNeedsDigit | mdk0401_pr1/PartnerEditWindow.xaml.cs:140 | A text without any digit does not parse. |
| Text.SignedNeedsDigit | mdk0401_pr1/PartnerEditWindow.xaml.cs:140 | Trimmed text without a digit, with or without a sign, does not parse. |
| Text.ParseRejectsOverflow | mdk0401_pr1/PartnerEditWindow.xaml.cs:140 | Digits whose value is beyond the 32-bit range do not parse. |
| Text.ParseSkipsSpaces | mdk0401_pr1/PartnerEditWindow.xaml.cs:140 | Any runs of the white space that number parsing skips (U+0009..U+000D and the space), put before and after any text, leave the result of `int.TryParse` unchanged. |
| Text.TrimStartSkips | mdk0401_pr1/PartnerEditWindow.xaml.cs:140 | White space put before a text is skipped together with the text's own leading white space. |
| Text.TrimEndSkips | mdk0401_pr1/PartnerEditWindow.xaml.cs:140 | White space put after a text is skipped together with the text's own trailing white space. |
| Text.TrimStartOfAppend | mdk0401_pr1/PartnerEditWindow.xaml.cs:140 | Skipping the leading white space of a text followed by more text either consumes the whole first part or stops inside it, leaving the second part intact. |
| Text.DigitsValueOfOverflow | mdk0401_pr1/PartnerEditWindow.xaml.cs:140 | "2147483648" is one past the largest 32-bit integer. |
| Text.TryParseAcceptsDigits | mdk0401_pr1/PartnerEditWindow.xaml.cs:140 | "42" and "0" parse. |
| Text.TryParseAcceptsNegative | mdk0401_pr1/PartnerEditWindow.xaml.cs:140 | "-1" parses to -1. |
| Text.TryParseAcceptsSpaces | mdk0401_pr1/PartnerEditWindow.xaml.cs:140 | " 7 " parses to 7. |
| Text.TryParseRejects | mdk0401_pr1/PartnerEditWindow.xaml.cs:140 | "abc", "", "-", "1 2" and "2147483648" do not parse. |
| EmailPattern.Step | mdk0401_pr1/PartnerEditWindow.xaml.cs:180 | The automaton never accepts white space, and accepts '@' only right after the local part. |
| EmailPattern.Chomp | mdk0401_pr1/PartnerEditWindow.xaml.cs:180 | The text that `$` sees: the input without one final line feed. A definition; `EmailPattern.IsMatchIff` and `EmailPattern.DollarBeforeFinalNewline` state its effect on matching. |
| EmailPattern.DollarBeforeFinalNewline | mdk0401_pr1/PartnerEditWindow.xaml.cs:180 | `$` also matches before one final line feed: a text with a line feed appended matches iff the text matches and did not already end with a line feed. |
| EmailPattern.Matches | mdk0401_pr1/PartnerEditWindow.xaml.cs:180 | Runs the pattern's automaton over the rest of the input, accepting at the end or before one final line feed. A definition; `EmailPattern.IsMatchIff` characterises it. |
| EmailPattern.IsMatch | mdk0401_pr1/PartnerEditWindow.xaml.cs:180-181 | `Regex.IsMatch` for the e-mail pattern: the automaton run from the start of the text. A definition; `EmailPattern.IsMatchIff` proves it equal to the plain description of an address. |
| EmailPattern.IsMatchIff | mdk0401_pr1/PartnerEditWindow.xaml.cs:176-187 | The pattern matches iff, after dropping one final line feed, the text has no white space and exactly one '@' with something before it, and after the '@' it has a '.' that is neither first nor last. |
| EmailPattern.SplitShape | mdk0401_pr1/PartnerEditWindow.xaml.cs:180 | Both sides of the '@' are in `[^@\s]` iff the text has no white space and no other '@'. |
| EmailPattern.ChompTail | mdk0401_pr1/PartnerEditWindow.xaml.cs:180 | Dropping the final line feed commutes with taking off the first character. |
| EmailPattern.FromComplete | mdk0401_pr1/PartnerEditWindow.xaml.cs:180 | After the last `[^@\s]` has started, any run of `[^@\s]` finishes the match. |
| EmailPattern.FromDotSeen | mdk0401_pr1/PartnerEditWindow.xaml.cs:180 | Just past the dot, at least one more `[^@\s]` is needed. |
| EmailPattern.FromDomainPart | mdk0401_pr1/PartnerEditWindow.xaml.cs:180 | Inside the domain, a later '.' followed by something is still needed. |
| EmailPattern.FromDomainStart | mdk0401_pr1/PartnerEditWindow.xaml.cs:180 | Just after the '@', the rest must be `[^@\s]+` with an inner '.'. |
| EmailPattern.ShiftSplit | mdk0401_pr1/PartnerEditWindow.xaml.cs:180 | A split at the '@' after the first character is a split of the rest, shifted by one. |
| EmailPattern.SplitOfRest | mdk0401_pr1/PartnerEditWindow.xaml.cs:180 | A split whose '@' is not first starts with a `[^@\s]` character, and the rest splits one position earlier. |
| EmailPattern.SplitOfWhole | mdk0401_pr1/PartnerEditWindow.xaml.cs:180 | A `[^@\s]` character put in front of a split text gives a split one position later. |
| EmailPattern.SplitAtStart | mdk0401_pr1/PartnerEditWindow.xaml.cs:180 | A split at a leading '@' is a domain that follows the '@' directly. |
| EmailPattern.FromLocalPart | mdk0401_pr1/PartnerEditWindow.xaml.cs:180 | Inside the local part, the match succeeds iff the rest splits at an '@'. |
| EmailPattern.LocalPartAt | mdk0401_pr1/PartnerEditWindow.xaml.cs:180 | At an '@' inside the local part, the match succeeds iff the text splits at an '@'. |
| EmailPattern.LocalPartGoesOn | mdk0401_pr1/PartnerEditWindow.xaml.cs:180 | Any other character inside the local part keeps the match equivalent to a split of the text. |
| EmailPattern.FromLocalStart | mdk0401_pr1/PartnerEditWindow.xaml.cs:180 | From the start, the match succeeds iff the text splits at an '@' that is not its first character. |
| PartnerForm.ValidInnIsTrimmed | mdk0401_pr1/PartnerEditWindow.xaml.cs:189-193 | A well-formed INN (10 or 12 digits) is not blank and is stored exactly as typed. |
| PartnerForm.InnExamples | mdk0401_pr1/PartnerEditWindow.xaml.cs:189-193 | 9 and 11 digits are rejected, as is a space among the digits. 10 and 12 digits are accepted. |
| PartnerForm.ValidEmailTrimmed | mdk0401_pr1/PartnerEditWindow.xaml.cs:153-154 | A valid address loses at most a final line feed when it is trimmed for storage, and stays valid. |
| PartnerForm.EmailAccepted | mdk0401_pr1/PartnerEditWindow.xaml.cs:176-187 | "foo@bar.com" is accepted. |
| PartnerForm.EmailWithoutDotRejected | mdk0401_pr1/PartnerEditWindow.xaml.cs:176-187 | "foo@bar" is rejected. |
| PartnerForm.EmailWithLeadingSpaceRejected | mdk0401_pr1/PartnerEditWindow.xaml.cs:176-187 | " foo@bar.com" is rejected. |
| PartnerForm.EmailWithTwoAtsRejected | mdk0401_pr1/PartnerEditWindow.xaml.cs:176-187 | "foo@@bar.com" is rejected. |
| PartnerForm.EmailWithDotFirstRejected | mdk0401_pr1/PartnerEditWindow.xaml.cs:176-187 | "foo@.com" is rejected. |
| PartnerForm.EmailWithFinalNewlineAccepted | mdk0401_pr1/PartnerEditWindow.xaml.cs:176-187 | "a@b.c" followed by a line feed is accepted. |
| PartnerForm.IsValidEmail | mdk0401_pr1/PartnerEditWindow.xaml.cs:176-187 | The e-mail check is the pattern match. A definition; `EmailPattern.IsMatchIff` and the `PartnerForm.Email…` lemmas state what it accepts. |
| PartnerForm.IsValidInn | mdk0401_pr1/PartnerEditWindow.xaml.cs:189-193 | An INN is all digits and 10 or 12 characters long. A definition; `PartnerForm.ValidInnIsTrimmed` and `PartnerForm.InnExamples` state its properties. |
| PartnerForm.RatingAccepted | mdk0401_pr1/PartnerEditWindow.xaml.cs:140 | The rating parses as a 32-bit integer that is not negative. A definition; `PartnerForm.RatingExamples` and `PartnerForm.AcceptedRating` state its properties. |
| PartnerForm.Holds | mdk0401_pr1/PartnerEditWindow.xaml.cs:104-171 | The eleven checks, one per condition in `ValidateInput`, each with its own text box. A definition; `PartnerForm.ValidateInput` states how they combine. |
| PartnerForm.Rank | mdk0401_pr1/PartnerEditWindow.xaml.cs:104-171 | The position of each check in the order the form runs them, from the type selection (0) to the INN format (10). A definition; `PartnerForm.ValidateInput` states how the order decides the reported check. |
| PartnerForm.Message | mdk0401_pr1/PartnerEditWindow.xaml.cs:106-169 | The message of each check, with the source's exact text. A definition; `PartnerForm.MessagesDistinct` and `PartnerForm.MessageDetermines` prove that a message names its check. |
| PartnerForm.ValidateInput | mdk0401_pr1/PartnerEditWindow.xaml.cs:101-174 | The form is accepted iff all eleven checks pass. Otherwise the reported check fails and every check that comes earlier in the form's order passes. |
| PartnerForm.PassedBefore | mdk0401_pr1/PartnerEditWindow.xaml.cs:101-174 | When each check before position k passes one by one, all checks ranked below k pass. |
| PartnerForm.ValidationMessage | mdk0401_pr1/PartnerEditWindow.xaml.cs:101-174 | There is no message iff every check passes. Otherwise the message is that of a check that fails while every earlier check passes. |
| PartnerForm.MessagesDistinct | mdk0401_pr1/PartnerEditWindow.xaml.cs:101-174 | Different checks show different messages. |
| PartnerForm.MessageDetermines | mdk0401_pr1/PartnerEditWindow.xaml.cs:101-174 | A message names its check. |
| PartnerForm.InnFormatImpliesGiven | mdk0401_pr1/PartnerEditWindow.xaml.cs:160-171 | A well-formed INN passes the INN-given check. |
| PartnerForm.EmailOptional | mdk0401_pr1/PartnerEditWindow.xaml.cs:153-158 | A blank address passes. A non-blank address that starts with white space fails, because it is checked untrimmed. |
| PartnerForm.RatingExamples | mdk0401_pr1/PartnerEditWindow.xaml.cs:140-144 | "0" and "42" pass the rating check. "-1", "abc" and "" fail it. |
| PartnerForm.AcceptedTexts | mdk0401_pr1/PartnerEditWindow.xaml.cs:104-151 | An accepted form has a selected type, and each required text is non-empty once trimmed. |
| PartnerForm.AcceptedInn | mdk0401_pr1/PartnerEditWindow.xaml.cs:160-171 | An accepted form's INN is well formed and is stored as typed. |
| PartnerForm.AcceptedRating | mdk0401_pr1/PartnerEditWindow.xaml.cs:140-144 | An accepted form's rating parses, and its value is not negative. |
| PartnerForm.AcceptedEmail | mdk0401_pr1/PartnerEditWindow.xaml.cs:153-158 | An accepted form's e-mail address is stored either as the empty text or as a valid address. |
| PartnerForm.StoredTexts | mdk0401_pr1/PartnerEditWindow.xaml.cs:251-288 | Non-blank texts keep something after trimming. |
| PartnerForm.GivenIsNotTrimmedAway | mdk0401_pr1/PartnerEditWindow.xaml.cs:110-151 | A text that passes `IsNullOrWhiteSpace` keeps something after trimming. |
| PartnerForm.StoredEmail | mdk0401_pr1/PartnerEditWindow.xaml.cs:153-154 | An e-mail text that passes its check is stored either empty or valid. |
| PartnerForm.KeystrokeRefused | mdk0401_pr1/PartnerEditWindow.xaml.cs:235-245 | The keystroke filter: refused iff the first character of the typed text is not a digit; an empty text has no verdict, because `char.IsDigit(text, 0)` throws on it. A definition; `PartnerForm.TypedTextIsDigits` and `PartnerForm.KeystrokeExamples` state its properties. |
| PartnerForm.TypedTextIsDigits | mdk0401_pr1/PartnerEditWindow.xaml.cs:235-245 | Text typed one accepted character at a time is all digits. |
| PartnerForm.KeystrokeExamples | mdk0401_pr1/PartnerEditWindow.xaml.cs:235-245 | Only the first character is looked at: "1a" is let through, "a1" is refused. |
| PartnerForm.DirectorNames.constructor | mdk0401_pr1/PartnerEditWindow.xaml.cs:264-269 | A new director record holds the three names and id 0. |
| PartnerForm.PartnerNames.constructor | mdk0401_pr1/PartnerEditWindow.xaml.cs:281-284 | A new partner-name record holds the name and id 0. |
| PartnerForm.PartnersInfo.constructor | mdk0401_pr1/PartnerEditWindow.xaml.cs:225 | A new partner has zero ids and rate, empty texts and no related records. |
| PartnerForm.ReadForm | mdk0401_pr1/PartnerEditWindow.xaml.cs:250-259 | The rating read from the form, when it parses, is a 32-bit value. |
| PartnerForm.AcceptedValues | mdk0401_pr1/PartnerEditWindow.xaml.cs:247-259 | The values read from an accepted form: every required text is non-empty after trimming, the INN is well formed, the e-mail is empty or valid, and the rating parsed to a non-negative number. |
| PartnerForm.StoreValues | mdk0401_pr1/PartnerEditWindow.xaml.cs:247-290 | Sets the type, address, phone, e-mail and INN. Sets the rate only when the rating parsed, and keeps the partner's id and name ids. Updates an existing director or name record in place and keeps its id. Creates a new record with id 0 when there is none. |
| PartnerForm.StoreDirector | mdk0401_pr1/PartnerEditWindow.xaml.cs:261-276 | The partner's director record holds the three names. An existing record is updated in place and keeps its id; when there was none, a new record with id 0 is attached. |
| PartnerForm.StorePartnerName | mdk0401_pr1/PartnerEditWindow.xaml.cs:278-289 | The partner's name record holds the name. An existing record is updated in place and keeps its id; when there was none, a new record with id 0 is attached. |
| PartnerForm.UpdatePartnerEntity | mdk0401_pr1/PartnerEditWindow.xaml.cs:247-290 | The stored texts are the trimmed form texts, and the rate is the parsed rating or the old rate. The related records are updated in place or created. After an accepted form the partner is complete: both records exist, the required texts are non-empty, the INN is well formed, the e-mail is empty or valid, and the rate is not negative. |

## Left out

- Database access through Entity Framework is left out: loading the tables and `SaveChanges`. So are the window plumbing (`LoadData`, `LoadPartnerData`, the Save and Cancel handlers, navigation between the windows) and every `MessageBox`. The model works on the loaded rows and on the form's field values.
- The path where the edited partner is no longer in the database (PartnerEditWindow.xaml.cs:215-220) is not modelled: it shows a message and returns without saving, and the Save handler (lines 311-313) still closes the window as if saving had succeeded.
- The partner-type lookup in the main window (MainWindow.xaml.cs:61) is computed but never used. `LoadPartners` performs it; the displayed type comes from the partner's own relation.
- PartnerList.TypeNameOf: the partner's type relation (`partner.PartnerTypes`, line 98) is an Entity Framework navigation property, which the framework fills from the partner-type row whose id is the partner's type id. The model takes it as a separate input of the partner row and does not tie it to that id or to the partner-type table. So `LoadPartners`' independence from the partner-type table holds in the model only.
- The main window's inner loop is the separate method `PriceLinks`, with the same steps in the same order.
- `PartnerForm.UpdatePartnerEntity`: split into `ReadForm`, which reads the form, and `StoreValues`, which writes the entity; the order of the assignments is the source's. `StoreValues` hands the director record (lines 261-276) to `StoreDirector` and the name record (lines 278-289) to `StorePartnerName`.
- C# `decimal` is modelled as an exact `real`. The 28-digit precision and the overflow exception of `decimal` arithmetic are not modelled.
- Text.IsDigit: accepts only the ASCII digits '0'..'9', while `char.IsDigit` also accepts the other Unicode decimal digits. So `IsValidInn` and the keystroke filter are modelled on ASCII input only.
- Text.TryParseInt32: does not model the trailing NUL characters that `int.TryParse` tolerates, nor culture-specific signs; only '-' and '+' are recognised.
- `PartnerForm.PartnersInfo.constructor`: a new entity's string properties are null in C#; the model starts them as empty texts. The update overwrites every one of them, so nothing observable changes.
- Null strings from the database are not modelled, except the names that the main window replaces with the placeholder (`Option`). The edit form's text boxes never yield null.
- The `try`/`catch` around the regular expression in `IsValidEmail` is not modelled: the pattern is a constant and never fails to compile.
- The message built from `DbEntityValidationException` when saving fails is not modelled.
