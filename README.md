# Tools — a verified model of the vehicle-order pipeline and its small components

This project models, in Dafny, the core of the Java repository "Tools". Its centre is the
vehicle-order pipeline:

- **TaktiqAbas** segments the production plan of a series into vehicle blocks.
  It builds one `TaktiqVehicles` order record: order number and series, model, planned
  dates, and feature codes.
- **TaktiqVehicles** is that record, with its guarded order-number setter, append-only
  lists and JSON form.
- **TaktiqAssemblySuite** is the client-side list logic of the sequencing service: the batch
  and series lists, the filtering of the orders answer, series selection and the sequence
  position.
- **TokenManager** and **RefreshManager** hold the expiry state of the access token.
- **DateTimeConverter** converts milliseconds to seconds and ABAS timestamps to the
  service's date format.

Around it sit small components:

- the fixed-width MES record: `MesSatz` fields and the order layout of `MesApi`;
- the `.gitignore` pattern table;
- the git status→action tables;
- the JSON codecs of the REST test object and the Unipi device and relay;
- the URL builders;
- the label generator.

Modelling choices:

- Java `null` is `Option.None`.
- A thrown exception is an `Exc` value in a `Result` or an `Outcome`.
- A decoded JSON value is the `Json` datatype.
- `int` and `long` arithmetic is written out with 32- and 64-bit wrap-around (`JavaInts`).
- The clock is a `now` parameter.
- URL encoding is a parameter `enc`.
- The Europe/Berlin zone rules are a parameter `atZone`.

Objects whose fields the source updates in place are Dafny classes. These are the vehicle
record, its shared features list, the suite, the token and refresh managers, the REST
objects, `MesSatz` and the `.gitignore` table. Their methods are proved against
specification functions (`LoadSpec`, `FetchSpec`, `SeriesSpec`, `ScanRows`, `BuildSpec`,
`LoadLines`, `SaveLines`, `RenderAll`, `FromJson`, `QueryUrl`, …), and the properties are
proved as lemmas about those functions.

## Model

| member | source | states |
|---|---|---|
| Json.Get | api/TaktiqVehicles.java:120 | `get`/`getOrDefault(key, null)`: the value under the key, or null when it is absent. |
| Json.AsText | api/TaktiqVehicles.java:120 | The `(String)` cast: it succeeds exactly for null and strings, otherwise ClassCastException. |
| Json.AsLong | api/UnipiDevice.java:44 | The `(Long)` cast: it succeeds exactly for null and numbers. |
| Json.AsObject | api/TaktiqVehicles.java:132 | The `(JSONObject)` cast: it succeeds exactly for null and objects. |
| Json.AsIterableArray | api/TaktiqVehicles.java:130-131 | Casting to `JSONArray` and iterating: it succeeds exactly for arrays, and null throws NullPointerException. |
| Json.FromText | api/TaktiqVehicles.java:161 | `put` of a String field: null exactly for a null field. |
| Json.FromLong | app/LabelGenerator.java:35 | `put` of an Integer/Long field: null exactly for a null field. |
| JavaInts.WrapInt | app/LabelGenerator.java:15 | `int` addition: the result is congruent to the exact sum modulo 2^32, and equal to it when it fits. |
| JavaInts.WrapLong | manager/RefreshManager.java:29 | `long` addition: the result is congruent to the exact sum modulo 2^64, and equal to it when it fits. |
| JavaInts.DecimalText | app/LabelGenerator.java:25 | `Integer.toString`: a '-' first exactly for a negative number. |
| JavaInts.DecimalRoundTrip | app/LabelGenerator.java:25 | The decimal text of every integer reads back as that integer. |
| JavaInts.PaddedValue | api/MesSatz.java:16 | A zero-padded field reads back as its number when the number fits the width. |
| Wrappers.JavaText | api/UnipiApi.java:89 | String concatenation writes null as "null". |
| TaktiqAbas.BuildVehicle | api/TaktiqAbas.java:14-77 | The record (or the exception) `buildVehicle` produces is exactly `BuildSpec`. The record and its feature list object are new. |
| TaktiqAbas.ScanPlan | api/TaktiqAbas.java:28-69 | The row loop (flag, resettable accumulator, setter calls) ends in the state `ScanRows` gives: the accumulator holds `future`, and the record holds `record`. A date conversion error stops the loop with that error. |
| TaktiqAbas.ApplyOpenRow | api/TaktiqAbas.java:42-56 | The setter calls of an opening row: the order number through the guard, model and description from the plan's article, then the planned date when `ytlterm` is set. |
| TaktiqAbas.StepRules | api/TaktiqAbas.java:32-41 | A boundary row sets the flag to whether it is the vehicle's own number, and an empty `pfz` keeps the flag. An opening row restarts the accumulator with decor code before option code. Rows inside the block add their option code; rows outside change nothing. |
| TaktiqAbas.ScanFeatures | api/TaktiqAbas.java:33-35 | After the pass the accumulator is exactly the codes of the vehicle's last block, and the flag says whether that block is still open. |
| TaktiqAbas.ScanDates | api/TaktiqAbas.java:51-55 | Dates are never reset: the record holds the planned date of every opening row with a date, over all blocks. The pass fails exactly when one of them fails to convert. |
| TaktiqAbas.ScanRecordFields | api/TaktiqAbas.java:43-49 | The order number and series are set exactly when some row opened the block and the id has 9 characters. Model and description come from the article when a block opened. The record's own features stay empty during the pass. |
| TaktiqAbas.ScanErrorSticky | api/TaktiqAbas.java:54 | A failed date conversion ends the pass: later rows change nothing. |
| TaktiqAbas.BandMismatchKeepsBlank | api/TaktiqAbas.java:24-26 | A plan for another line returns the new record at once: no order number, empty features. |
| TaktiqAbas.NoPlanOnlySeries | api/TaktiqAbas.java:18-23 | A non-vehicle, or a vehicle without a plan, gets features exactly `[null]` (the unset series number). |
| TaktiqAbas.BuildFromPlan | api/TaktiqAbas.java:28-76 | With a matching plan: the features are the last block's codes followed by exactly one series number. The dates are those of all opening rows. The order number is set only through the 9-character guard. Success and failure are both characterised. |
| TaktiqAbas.OptionsAfterClosingIgnored | api/TaktiqAbas.java:36-38 | Concrete plan [A, option X, B, option Y] for vehicle A: X is collected, and Y is not, because row B closes the block. |
| TaktiqAbas.LastOpening | api/TaktiqAbas.java:33 | The index of the last opening row, with no opening row after it, or none at all. |
| TaktiqVehicles.AcceptOrderNumberKeepsSeries | api/TaktiqVehicles.java:45-50 | `setOrderNumber` keeps "series = first 4 characters of the order number". A 9-character number leaves a 4-character series; any other argument changes nothing. |
| TaktiqVehicles.TaktiqVehicle.constructor | api/TaktiqVehicles.java:35-38 | New record: all fields null, both lists new and empty. |
| TaktiqVehicles.TaktiqVehicle.SetOrderNumber | api/TaktiqVehicles.java:45-50 | Only a non-null 9-character value is accepted, and then the series is its first 4 characters. Otherwise the record is unchanged. |
| TaktiqVehicles.TaktiqVehicle.SetModel | api/TaktiqVehicles.java:75-77 | Only `model` changes. |
| TaktiqVehicles.TaktiqVehicle.SetDescription | api/TaktiqVehicles.java:84-86 | Only `description` changes. |
| TaktiqVehicles.TaktiqVehicle.SetFeaturesList | api/TaktiqVehicles.java:93-96 | The caller's list object grows by exactly the current series number (possibly null), and the record now shares that very object. |
| TaktiqVehicles.StringList.Add | api/TaktiqVehicles.java:94 | `List.add` appends exactly one element. |
| TaktiqVehicles.TaktiqVehicle.AddDate | api/TaktiqVehicles.java:105-107 | Exactly one entry is appended at the end; nothing else changes. |
| TaktiqVehicles.TaktiqVehicle.LoadVehicleFromJson | api/TaktiqVehicles.java:116-151 | The new state and outcome are `LoadSpec` of the old state. The list object stays the same. |
| TaktiqVehicles.TaktiqVehicle.AppendDates | api/TaktiqVehicles.java:129-139 | The dates loop appends the decoded entries up to the first element that throws, and reports that exception. |
| TaktiqVehicles.TaktiqVehicle.AppendFeatures | api/TaktiqVehicles.java:142-150 | The features loop appends `StringElems` of the array: every string element and nothing else (`StringElems`), in array order (`StringElemsKeepsOrder`). |
| TaktiqVehicles.TaktiqVehicle.ToJson | api/TaktiqVehicles.java:159-168 | The object `toString` serialises is `VehicleJson` of the record. |
| TaktiqVehicles.TaktiqVehicle.DatesListToJson | api/TaktiqVehicles.java:176-186 | One `{date, location, type}` object per entry, in order. |
| TaktiqVehicles.VehicleJson | api/TaktiqVehicles.java:159-168 | Exactly the keys orderNumber, model, description, dates and features. |
| TaktiqVehicles.DatesJson | api/TaktiqVehicles.java:176-186 | Same length as the dates. Each element is an object with exactly date, location and type. |
| TaktiqVehicles.FeaturesJson | api/TaktiqVehicles.java:165 | One element per feature; an element is JSON null exactly when the feature is null. |
| TaktiqVehicles.DropNulls | api/TaktiqVehicles.java:144-148 | Exactly the non-null features are kept: each kept entry is a non-null entry of the list and every non-null entry is kept, with no more entries than the list. |
| TaktiqVehicles.DropNullsKeepsOrder | api/TaktiqVehicles.java:144-148 | Dropping nulls keeps the list order: it distributes over concatenation. |
| TaktiqVehicles.StringElems | api/TaktiqVehicles.java:144-148 | Exactly the string elements are kept: each kept entry is a string of the array and every string of the array is kept; nulls and other types are dropped. |
| TaktiqVehicles.StringElemsKeepsOrder | api/TaktiqVehicles.java:144-148 | Reading the strings keeps the array order: it distributes over concatenation. |
| TaktiqVehicles.LoadOnlyAppends | api/TaktiqVehicles.java:129-150 | Loading never clears: old dates and features stay in front, and a missing key leaves its list unchanged. The series number is never touched. |
| TaktiqVehicles.LoadSkipsOrderNumberCheck | api/TaktiqVehicles.java:120-126 | The scalar fields are copied without the 9-character check: "AB" is accepted and the series is untouched. |
| TaktiqVehicles.LoadBreaksSeriesInvariant | api/TaktiqVehicles.java:120 | A blank record satisfies the series invariant, and loading an order number breaks it. |
| TaktiqVehicles.DecodeDatesSticky | api/TaktiqVehicles.java:131-138 | After the first element that throws, later elements change nothing. |
| TaktiqVehicles.DecodeDatesOfEncoding | api/TaktiqVehicles.java:131-138 | Decoding the encoded dates gives them back, in order, without an exception. |
| TaktiqVehicles.StringElemsOfEncoding | api/TaktiqVehicles.java:144-148 | Reading the encoded features gives them back without their nulls. |
| TaktiqVehicles.LoadOfJsonRoundTrip | api/TaktiqVehicles.java:116-168 | Loading a record's JSON into a new record restores the order number, model, description and dates. Features come back with nulls dropped; the series number is not restored. |
| AssemblySuite.SuiteTokenDueAtOnce | api/TaktiqAssemblySuite.java:34 | With a validity of 10000 ms and the 60000 ms lead time, the new token is due for refresh at once. |
| AssemblySuite.TaktiqAssemblySuite.Create | api/TaktiqAssemblySuite.java:49-58 | The constructor as written: it returns a suite exactly when `ConstructSpec` succeeds, and otherwise fails with `ConstructSpec`'s exception and no suite. A suite it returns is new, has empty lists and the server's tokens. |
| AssemblySuite.ConstructSpec | api/TaktiqAssemblySuite.java:50-57 | Success needs username and password set, baseurl null (the inverted guard) and a successful authentication answer. |
| AssemblySuite.ConstructorAlwaysThrows | api/TaktiqAssemblySuite.java:50-78 | For every input the constructor throws IOException: the only baseurl the guard lets through is null, and "null/api/Users/authenticate" has no protocol, so `new URL` throws. |
| AssemblySuite.TaktiqAssemblySuite.CreateChecked | api/TaktiqAssemblySuite.java:49-58 | The constructor as intended: it returns a suite exactly when `ConstructCheckedSpec` succeeds. The suite is new, has empty lists and the server's tokens, and its token is due for refresh at once. |
| AssemblySuite.ConstructCheckedSpec | api/TaktiqAssemblySuite.java:50-57 | Succeeds exactly when username, password and baseurl are set, the authentication URL's protocol is https and the server answers; the result is then the answer. A missing argument gives IOException. |
| AssemblySuite.CheckedConstructorReachesServer | api/TaktiqAssemblySuite.java:50-78 | With a base URL "https://host" the intended constructor returns the server's answer. |
| AssemblySuite.CheckedConstructorRejectsHttp | api/UrlHandler.java:66-67 | With a base URL "http://host" the intended constructor throws ClassCastException: the connection is not an `HttpsURLConnection`. |
| AssemblySuite.SchemeOfBaseUrl | api/UrlHandler.java:66 | The protocol `new URL` reads from "<scheme>://…/api/Users/authenticate" is the scheme. |
| AssemblySuite.Protocol | api/UrlHandler.java:66 | A protocol is found only when a ':' comes before the first '/' and the text before it is a valid protocol name. |
| AssemblySuite.Request | api/UrlHandler.java:64-67 | Only an https URL gives the server's answer. A URL without a valid protocol, or with a protocol the JDK has no handler for, throws MalformedURLException (an IOException). Another JDK protocol (http, ftp, file, jar, jrt, mailto) throws ClassCastException at the `HttpsURLConnection` cast. |
| AssemblySuite.BeforeSlash | api/UrlHandler.java:66 | The longest prefix of the URL without a "/". |
| AssemblySuite.BeforeSlashOfPath | api/UrlHandler.java:66 | A text without "/" followed by a path is the part before the first "/". |
| AssemblySuite.OrdersRequestNeverOpens | api/TaktiqAssemblySuite.java:104-108 | The orders request uses the relative URL "/api/Orders?PlanningArea<n>", so it always throws MalformedURLException. |
| AssemblySuite.TaktiqAssemblySuite.Authenticated | api/TaktiqAssemblySuite.java:54-57 | The state after the guard: baseurl stored, tokens in a new manager expiring 10000 ms from now, both lists empty. |
| AssemblySuite.TaktiqAssemblySuite.SetProductionLineNumber | api/TaktiqAssemblySuite.java:60-63 | Stores the band and replaces both lists with empty ones. |
| AssemblySuite.TaktiqAssemblySuite.ResetOrders | api/TaktiqAssemblySuite.java:65-68 | Both lists become empty; everything else is kept. |
| AssemblySuite.TaktiqAssemblySuite.GetVehicles | api/TaktiqAssemblySuite.java:103-125 | A null line number throws NullPointerException and an answer that is not an array throws ParseException; in both cases the list is unchanged. Otherwise the batch list keeps its entries and grows by fresh records with `FetchSpec`'s values, and the series list is kept. |
| AssemblySuite.TaktiqAssemblySuite.AppendOrders | api/TaktiqAssemblySuite.java:111-124 | The batch list keeps its entries and grows by fresh records whose values are `FetchSpec`'s, in answer order. |
| AssemblySuite.TaktiqAssemblySuite.ReadOrders | api/TaktiqAssemblySuite.java:111-124 | The records the loop creates have the values `FetchSpec` gives, with its outcome. All of them are fresh, and there are none when the list is null. |
| AssemblySuite.OrderNumbers | api/TaktiqAssemblySuite.java:113-120 | The order number of every order element is among the numbers read, and there are no more numbers than elements. |
| AssemblySuite.FetchFollowsOrders | api/TaktiqAssemblySuite.java:111-124 | One record per element that is an object with a String orderNumber, in order, carrying that number. No record has a series number. |
| AssemblySuite.FetchWithoutOrders | api/TaktiqAssemblySuite.java:113-118 | Elements that are not orders are skipped: nothing is loaded and nothing throws. |
| AssemblySuite.FetchWithoutList | api/TaktiqAssemblySuite.java:121 | With a null batch list nothing is appended, and the first order throws. |
| AssemblySuite.LoadOrder | api/TaktiqAssemblySuite.java:117-120 | An order element loads into a new record carrying its order number and no series number. |
| AssemblySuite.FetchSticky | api/TaktiqAssemblySuite.java:111-124 | After an exception later elements change nothing. |
| AssemblySuite.TaktiqAssemblySuite.GetSeries | api/TaktiqAssemblySuite.java:128-142 | The selection as written. Nothing changes unless the argument has 9 characters and the batch list is set. Then `SeriesSpec`'s matches are appended and the series list never shrinks. |
| AssemblySuite.SeriesSpec | api/TaktiqAssemblySuite.java:137-141 | Every appended record is from the batch list and has a series number that starts with the argument. |
| AssemblySuite.SeriesSelectionNeverMatches | api/TaktiqAssemblySuite.java:138 | A 9-character argument never prefixes a 4-character series number, so nothing is selected. |
| AssemblySuite.SeriesSelectionThrowsOnLoaded | api/TaktiqAssemblySuite.java:138 | Records read by `getVehicles` have no series number, so the selection throws NullPointerException on the first one. |
| AssemblySuite.SeriesSticky | api/TaktiqAssemblySuite.java:137-141 | Once the selection throws, later records change nothing. |
| AssemblySuite.TaktiqAssemblySuite.GetSeriesByPrefix | api/TaktiqAssemblySuite.java:128-142 | The corrected selection: for a 4-character prefix it appends `SeriesOf` the prefix and never throws. Any other argument, or a missing list, leaves the series list unchanged. |
| AssemblySuite.SeriesOf | api/TaktiqAssemblySuite.java:137-141 | Exactly the batch records whose series number is set and starts with the prefix, and no more of them than the batch holds. |
| AssemblySuite.SeriesOfKeepsOrder | api/TaktiqAssemblySuite.java:137-141 | The selection keeps the batch order: selecting from a concatenation is the concatenation of the selections. |
| AssemblySuite.SeriesOfOne | api/TaktiqAssemblySuite.java:138-140 | One record is copied exactly when its series number is set and starts with the prefix. |
| AssemblySuite.SeriesOfSelectsOwnOrder | api/TaktiqVehicles.java:45-50 | A record whose number went through `setOrderNumber` is selected by the first 4 characters of its order number. |
| AssemblySuite.TaktiqAssemblySuite.GetVehicleSequencePos | api/TaktiqAssemblySuite.java:145-162 | Null when the list or the record is null, or when the record (by identity) is absent. Otherwise the 1-based position of its last occurrence, in 1..size. |
| Tokens.TokenManager.constructor | manager/TokenManager.java:36-41 | Stores both tokens and the 60000 ms lead time, and sets expiry to now + validity. |
| Tokens.TokenManager.SetAccessToken | manager/TokenManager.java:48-50 | Changes only the access token. |
| Tokens.TokenManager.SetRefreshToken | manager/TokenManager.java:57-59 | Changes only the refresh token. |
| Tokens.TokenManager.SetExpirationTime | manager/TokenManager.java:66-68 | Restarts the expiry; the remaining time at that instant is the validity. |
| Tokens.TokenManager.SetActiveLeadTime | manager/TokenManager.java:75-77 | Changes only the lead time. |
| Tokens.TokenManager.RemainingTime | manager/TokenManager.java:111-113 | Equals the inner manager's remaining time. |
| Tokens.TokenManager.IsRefreshRequired | manager/TokenManager.java:121-123 | Holds exactly when the remaining time is at most the lead time, i.e. from `lead` ms before expiry on. |
| Tokens.DueFromLeadBeforeExpiry | manager/TokenManager.java:121-123 | Without overflow, a refresh is due exactly when now ≥ expiry − lead. |
| Tokens.ShortValidityDueAtOnce | manager/TokenManager.java:36-41 | A token valid for no longer than the lead time is due immediately. |
| Refreshing.RefreshManager.constructor | manager/RefreshManager.java:18-20 | Same as `setExpirationTime(refreshTimeMillis)`. |
| Refreshing.RefreshManager.SetExpirationTime | manager/RefreshManager.java:27-30 | expiry = now + d (64-bit); the remaining time at that instant is d. |
| Refreshing.RefreshManager.RemainingTime | manager/RefreshManager.java:37-40 | expiry − now, negative exactly once the expiry has passed. |
| Refreshing.RefreshManager.IsRefreshRequired | manager/RefreshManager.java:48-50 | The remaining time, computed in long arithmetic, is at most 0. When expiry − now fits in a long, this holds exactly when expiry ≤ now. |
| Refreshing.RemainingAfterSetting | manager/RefreshManager.java:27-40 | Setting d at now leaves exactly d. |
| Refreshing.RemainingNeverIncreases | manager/RefreshManager.java:37-40 | With a fixed expiry and a clock moving forward, the remaining time never increases. |
| Refreshing.DueExactlyFromExpiry | manager/RefreshManager.java:48-50 | Remaining ≤ 0 exactly from the expiry instant on. |
| Refreshing.StaysDue | manager/RefreshManager.java:37-50 | Once due, it stays due until the expiry is set again. |
| DateTimeConverter.ConvertMillisToSeconds | converter/DateTimeConverter.java:15-17 | Truncating division. For millis ≥ 0, r·1000 ≤ millis < r·1000 + 1000; for negative millis the bounds mirror. The result never has the opposite sign. |
| DateTimeConverter.ConvertWholeSeconds | converter/DateTimeConverter.java:15-17 | Whole seconds convert exactly. |
| DateTimeConverter.ConvertMonotone | converter/DateTimeConverter.java:15-17 | Monotone non-decreasing. |
| DateTimeConverter.AbasTimestampToTaktiq | converter/DateTimeConverter.java:25-35 | Null input gives NullPointerException. The result is a value exactly when the text parses as yyyyMMddHHmmss, otherwise DateTimeParseException. |
| DateTimeConverter.AbasOfCompactText | converter/DateTimeConverter.java:27-32 | A valid date-time's compact text converts to the formatted zoned date-time. |
| DateTimeConverter.TaktiqTextLayout | converter/DateTimeConverter.java:31-32 | The output has the 'T' and separators in place and always the 7-digit fraction 0000000. |
| DateTimeConverter.YearText | converter/DateTimeConverter.java:31 | "yyyy": four digits that read back as the year. |
| DateTimeConverter.OffsetText | converter/DateTimeConverter.java:31 | "XXX": "Z" exactly for offset 0, otherwise at least six characters, starting with '+' exactly for a positive offset. |
| DateTimeConverter.ClampsDayOfMonth | converter/DateTimeConverter.java:27-28 | The SMART resolver clamps a day past the month's end: "…0231…" reads as the last day of February. |
| DateTimeConverter.EndOfDayMidnight | converter/DateTimeConverter.java:27-28 | "240000" reads as midnight of the next day. |
| DateTimeConverter.RejectsHourPastMidnight | converter/DateTimeConverter.java:27-28 | An hour past 24, or 24 with minutes or seconds, throws a parse exception. |
| JavaTime.Resolve | converter/DateTimeConverter.java:27-28 | A resolved date-time is in range, and is valid unless the hour was 24. |
| JavaTime.ParseCompactFields | converter/DateTimeConverter.java:27-28 | Fourteen digits parse to the resolution of their six fields. |
| JavaTime.ParseDottedFields | api/MesSatz.java:15 | "dd.MM.yyyy HH:mm:ss" text parses to the resolution of its six fields. |
| JavaTime.CompactRoundTrip | converter/DateTimeConverter.java:27-28 | Every valid date-time parses back from its yyyyMMddHHmmss text. |
| JavaTime.DottedRoundTrip | api/MesSatz.java:15 | Every valid date-time parses back from its "dd.MM.yyyy HH:mm:ss" text. |
| JavaTime.ParseCompact | converter/DateTimeConverter.java:27-28 | Only fourteen digits can parse (four-digit years). |
| JavaTime.ShortText | api/MesSatz.java:16 | "yyMMddHHmmss" is twelve digits. |
| MesFields.MesSatz.constructor | api/MesSatz.java:18-24 | Stores the five fields. |
| MesFields.MesSatz.SetWert | api/MesSatz.java:63-65 | Changes only the value. |
| MesFields.MesSatz.TypeC | api/MesSatz.java:67-84 | A null value is replaced by "" and written back. The result is the value right-aligned in `laenge` spaces, or its last `laenge` characters. A null width throws NullPointerException, a negative one StringIndexOutOfBounds. |
| MesFields.MesSatz.TypeN | api/MesSatz.java:86-102 | As typeC with '0' as the fill and "0" as the null replacement. |
| MesFields.MesSatz.PadWert | api/MesSatz.java:74-83 | The StringBuilder loop: `laenge` fill characters, the value, then the suffix of length `laenge`, equals `PadResult`. |
| MesFields.MesSatz.ToString | api/MesSatz.java:117-139 | The text and new field are `Render`: 'N' to typeN, 'D' to typeD, every other type to typeC. |
| MesFields.PadLeftShape | api/MesSatz.java:73-83 | Exactly `width` characters. A value no longer than the width is right-aligned after width − \|w\| fill characters; a longer one keeps its last `width` characters. |
| MesFields.PadLeftIdempotent | api/MesSatz.java:73-83 | Padding twice is padding once, and a value of exactly the width is shown unchanged. |
| MesFields.PadResult | api/MesSatz.java:74-83 | A null width throws NullPointerException and a negative one IndexOutOfBounds. Otherwise the padded value of exactly that width. |
| MesFields.Substring | api/MesSatz.java:83 | `substring(begin)` succeeds exactly for 0 ≤ begin ≤ \|s\|. |
| MesFields.DateText | api/MesSatz.java:104-114 | Null throws. Any other value gives twelve digits, "700101000000" when it does not parse. |
| MesFields.EpochText | api/MesSatz.java:110-113 | The fallback date parses to 1970-01-01 00:00:00 and prints as "700101000000". |
| MesFields.DateTextOfDotted | api/MesSatz.java:104-114 | A dotted date-time is reformatted as its yyMMddHHmmss text. |
| MesFields.RenderWidth | api/MesSatz.java:117-139 | A C/N field renders in exactly its width and a date field in twelve characters. A short C value is right-aligned. |
| MesFields.RenderStable | api/MesSatz.java:67-71 | Rendering a field as the first rendering left it gives the same text again. |
| MesFields.RenderFillsNull | api/MesSatz.java:69-71 | Rendering changes only the value, and only a null one; a C or N field (any type but D) has a value afterwards. |
| MesOrders.GenSatzAuftrag | api/MesApi.java:12-25 | Eight distinct new fields with exactly the listed names, positions, widths, types and values. |
| MesOrders.AuftragContiguous | api/MesApi.java:15-22 | The layout starts at 1, each field starts where the previous ends, the last ends at 59, and the widths sum to 59. |
| MesOrders.AuftragWidth | api/MesApi.java:35-41 | Whatever values the fields hold, as long as the date field (type D) has one, the order record renders in exactly 59 characters. |
| MesOrders.RenderAllWidth | api/MesApi.java:35-41 | When every field renders, the record's length is the sum of the widths. |
| MesOrders.SetzeWert | api/MesApi.java:27-33 | Every field named `name` before the first unnamed one gets the value, and all other fields keep theirs. Reaching an unnamed field throws NullPointerException. |
| MesOrders.ToString | api/MesApi.java:35-41 | The result is the fields' texts concatenated in order (`RenderAll`), or the first exception. Reached fields keep the null replacements rendering wrote back. |
| MesOrders.RenderSticky | api/MesApi.java:37-39 | Once a field throws, later fields change nothing. |
| GitIgnoreTable.GitIgnore.constructor | projects/git/GitIgnore.java:19-22 | Empty table. |
| GitIgnoreTable.GitIgnore.AddPattern | projects/git/GitIgnore.java:85-100 | Null or empty pattern: no change. A null comment is stored as "". An existing pattern throws IllegalArgumentException and changes nothing. A new pattern goes last. |
| GitIgnoreTable.GitIgnore.RemovePattern | projects/git/GitIgnore.java:107-113 | Removes only that key, keeping the order of the others; an absent key changes nothing. |
| GitIgnoreTable.GitIgnore.LoadGitIgnore | projects/git/GitIgnore.java:44-57 | The table after reading the lines is `LoadLines` of the old table (not cleared first). |
| GitIgnoreTable.GitIgnore.SaveGitIgnore | projects/git/GitIgnore.java:125-137 | The written lines are `SaveLines` of the table. |
| GitIgnoreTable.Put | projects/git/GitIgnore.java:55 | `LinkedHashMap.put`: a new key goes last, and an existing key keeps its place and gets the new value. |
| GitIgnoreTable.PutKeepsTable | projects/git/GitIgnore.java:55 | `put` keeps every key listed exactly once. |
| GitIgnoreTable.Classify | projects/git/GitIgnore.java:49-56 | After trimming: an empty line is blank, and only it; a line starting with '#' is a comment with the regex's text, and only it; any other line is a pattern, namely the trimmed line. |
| GitIgnoreTable.CommentTextOfLine | projects/git/GitIgnore.java:52 | The regex strips leading "#"+spaces and trailing spaces+"#": "# c" reads as c, for a trimmed c that ends neither with '#' nor with '#' before a final U+0085, U+2028 or U+2029. |
| GitIgnoreTable.CommentHashBeforeLineEndLost | projects/git/GitIgnore.java:52 | `$` also matches before a final line terminator: "# x#" followed by U+2028 reads as "x" followed by U+2028. |
| GitIgnoreTable.Trim | projects/git/GitIgnore.java:49 | `trim` never lengthens the line and leaves neither end trimmable. |
| GitIgnoreTable.TrimKeepsMiddle | projects/git/GitIgnore.java:49 | `trim` gives a contiguous part of the line; everything it cuts off on either side is a character up to ' '. |
| GitIgnoreTable.LoadLinesKeeps | projects/git/GitIgnore.java:44-57 | Loading keeps the table invariant and earlier entries in front, and never removes a key. |
| GitIgnoreTable.LoadLinesContains | projects/git/GitIgnore.java:53-55 | Every pattern line read is in the table afterwards. |
| GitIgnoreTable.LoadBlankLine | projects/git/GitIgnore.java:53 | A blank line changes nothing. |
| GitIgnoreTable.LoadPlainLine | projects/git/GitIgnore.java:55 | A pattern line is put with the current comment. |
| GitIgnoreTable.LoadCommentLine | projects/git/GitIgnore.java:50-52 | A comment line changes only the current comment. |
| GitIgnoreTable.SaveWritesEachPatternOnce | projects/git/GitIgnore.java:125-137 | Save writes every pattern exactly once, in table order. |
| GitIgnoreTable.SaveCommentsFollowBlank | projects/git/GitIgnore.java:129-133 | A comment is written only when non-empty, and always right after a blank line. |
| GitIgnoreTable.SaveLinesOfEntries | projects/git/GitIgnore.java:130-136 | The lines are the texts of the written entries, one for one. |
| GitIgnoreTable.LoadAfterSaveNotIdentity | projects/git/GitIgnore.java:131 | Pattern p with comment c is saved as ["", c, p] and read back as two patterns c and p with empty comments. |
| GitIgnoreTable.LoadAfterSaveCommentedRoundTrip | projects/git/GitIgnore.java:125-137 | With comments written as "# c", loading the saved lines gives the table back exactly. |
| GitActions.PreCommitActions | projects/git/GitStatusActionMapper.java:106-115 | Keys are exactly the six file statuses. |
| GitActions.PostCommitActions | projects/git/GitStatusActionMapper.java:125-130 | Keys are exactly Commit Local and Commit Remote. |
| GitActions.StatusesDisjoint | projects/git/GitStatusActionMapper.java:55-60 | The two key sets are disjoint, so the merge overrides nothing. |
| GitActions.GetActions | projects/git/GitStatusActionMapper.java:55-60 | The entry from whichever table has the status, else the empty list. |
| GitActions.PushOnlyForLocalCommit | projects/git/GitStatusActionMapper.java:127-128 | Push is offered exactly for Commit Local. Every known status has at least two actions, all distinct. |
| GitActions.GetAllAvailableActions | projects/git/GitStatus.java:77-79 | Exactly the six file statuses, each with the mapper's actions. |
| GitActions.GetAvailableActions | projects/git/GitStatus.java:64-67 | The table of `createActionMap`; anything else, commit statuses included, gives the empty list. |
| GitActions.AvailableActionsDifferOnCommits | projects/git/GitStatus.java:231-240 | The two classes differ exactly on the commit statuses. |
| RestfulObjects.FromJson | api/restful/RestfulObject.java:71-96 | With "id": id is set, then name, createdAt and data only when present; message is kept. Without "id": only message, when present. A value of the wrong type throws ClassCastException and keeps what was set before it. |
| RestfulObjects.FromJsonKeepsAbsent | api/restful/RestfulObject.java:71-96 | A field whose key is absent is never changed or cleared. |
| RestfulObjects.ToJson | api/restful/RestfulObject.java:99-123 | A key exactly for each non-null field, with its value. |
| RestfulObjects.BlankJson | api/restful/RestfulObject.java:22-28 | After `reset`, `toJson` writes only the empty data object. |
| RestfulObjects.RoundTripWithId | api/restful/RestfulObject.java:71-123 | With an id, reading its own JSON into a new object restores id, name, createdAt and data (null data comes back as the empty object), but not message. |
| RestfulObjects.RoundTripWithoutId | api/restful/RestfulObject.java:90-95 | Without an id, only message is restored. |
| RestfulObjects.RestfulObject.constructor | api/restful/RestfulObject.java:18-20 | The constructor resets. |
| RestfulObjects.RestfulObject.Reset | api/restful/RestfulObject.java:22-28 | Text fields null, data an empty object. |
| RestfulObjects.RestfulObject.FromJsonObject | api/restful/RestfulObject.java:71-96 | The new fields and outcome are `FromJson` of the old ones. |
| ApiRestfulObject.RestfulObject.constructor | api/RestfulObject.java:12-14 | The constructor resets. |
| ApiRestfulObject.RestfulObject.Reset | api/RestfulObject.java:16-22 | Text fields null, data an empty object. |
| ApiRestfulObject.RestfulObject.FromJsonObject | api/RestfulObject.java:65-90 | Same as the newer copy: the fields and outcome are `FromJson`. |
| UnipiDevices.DeviceFromJson | api/UnipiDevice.java:40-47 | Reads dev, family, model, sn, board_count and circuit, a missing key giving null. It succeeds exactly when every present value has the right type, otherwise ClassCastException. |
| UnipiDevices.DeviceToJson | api/UnipiDevice.java:119-129 | Exactly the keys dev, family, model, sn, boardCount and circuit. |
| UnipiDevices.DeviceRoundTrip | api/UnipiDevice.java:45 | Rebuilding from `toJson` keeps every field but boardCount, which becomes null. |
| UnipiRelays.RelayFromJson | api/UnipiDeviceRO.java:31-35 | Reads dev, circuit and value; a missing key gives null; a wrong type throws. |
| UnipiRelays.RelayToJson | api/UnipiDeviceRO.java:80-87 | Exactly the keys dev, circuit and value. |
| UnipiRelays.RelayRoundTrip | api/UnipiDeviceRO.java:31-35 | Rebuilding from `toJson` gives the relay back. |
| UnipiUrls.GetUrl | api/UnipiApi.java:71-77 | "http://name:port" when both are non-null, else IOException. |
| UnipiUrls.GetUrlFormat | api/UnipiApi.java:88-90 | `getUrl` + "/" + format ("null" for a null format). |
| UnipiUrls.AddCircuit | api/UnipiApi.java:266-274 | url + "/" + circuit, else IOException for a null circuit. |
| UnipiUrls.DeviceListUrl | api/UnipiApi.java:115 | The device list URL is "http://name:port/json/device_info/all". |
| UnipiUrls.GetDevice | api/UnipiApi.java:137-147 | The first device whose circuit equals the argument. A null circuit before it throws NullPointerException; no match or no list throws IOException. |
| UnipiUrls.SearchStop | api/UnipiApi.java:140-144 | The first index where the search stops. |
| QueryStrings.AddParametersToUrl | api/HttpHandler.java:34-53 | The StringBuilder loop produces `QueryUrl`. The same loop is in api/UrlHandler.java:33-52 and api/restful/RestfulApi.java:52-71. |
| QueryStrings.QueryUrl | api/UrlHandler.java:33-52 | A null or empty list gives the base URL unchanged. Otherwise base + "?" + the entries joined by "&". |
| QueryStrings.Entry | api/restful/RestfulApi.java:59-63 | enc(name) + "=" + enc(value) exactly when the name is non-null and non-empty, else enc(value). |
| QueryStrings.Entries | api/HttpHandler.java:38-49 | One entry per value, in order. |
| QueryStrings.SplitJoin | api/HttpHandler.java:46-48 | With entries free of '&', cutting the query at each '&' gives the entries back: exactly n−1 separators, none at either end. |
| LabelGenerator.GenNumbers | app/LabelGenerator.java:11-19 | A null argument gives []. Otherwise max(count, 0) numbers: element k is start + k in int arithmetic. |
| LabelGenerator.Counted | app/LabelGenerator.java:14-16 | Element k is start + k wrapped to 32 bits. |
| LabelGenerator.CountedWithoutOverflow | app/LabelGenerator.java:14-16 | Without overflow, element k is exactly start + k. |
| LabelGenerator.CountedWraps | app/LabelGenerator.java:15 | Counting past Integer.MAX_VALUE goes on at Integer.MIN_VALUE. |
| LabelGenerator.CountedDistinct | app/LabelGenerator.java:14-16 | Any count an int can hold gives pairwise distinct numbers, even across the wrap. |
| LabelGenerator.GenSerialNumbers | app/LabelGenerator.java:21-29 | A null list gives []. Otherwise `Serials`: the serial of each number in order, or NullPointerException on a null element. |
| LabelGenerator.Serials | app/LabelGenerator.java:24-26 | It succeeds exactly when no element is null, preserves length, and element k is prefix + decimal text of number k. |
| LabelGenerator.SerialReadsBack | app/LabelGenerator.java:25 | Each serial starts with the prefix, and the rest reads back as its number. |
| LabelGenerator.SerialsDistinct | app/LabelGenerator.java:25 | Distinct numbers give distinct serials. |
| LabelGenerator.GeneratedSerialsDistinct | app/LabelGenerator.java:11-29 | The serials of generated numbers never throw and are pairwise distinct. |
| LabelGenerator.LabelArray | app/LabelGenerator.java:40-42 | One JSON number per label, in order, a null label as null. |
| LabelGenerator.ToJson | app/LabelGenerator.java:32-47 | Exactly page, prefix and labels. A null list throws NullPointerException. |
| LabelGenerator.LabelPageReadsBack | app/LabelGenerator.java:35-44 | Reading the page back gives the page, the prefix and every label in order. |

## Left out

- HTTP and JSON text are not modelled. Of `authenticate` and `createConnection` the model keeps only the `new URL` check on the protocol (`Request`); the server's answer is a parameter. Not modelled: `putVehicles`, the request half of `getVehicles`, `checkToken` (whose refresh branch is empty), the connection set-up beyond that check and `getResponse`, the network calls of `UnipiApi` and `RestfulApi`, and `MesApi.sendeAuftrag`, a generated foreign client. JSON values are taken as already parsed (`Json`), and `toString`/`toJSONString` stop at the JSON value.
- `TaktiqAssemblySuite.buildVehicle` and `formatDate` are not modelled: the former does not compile (undefined `dbContext` and `Artikel`, an extra parenthesis), and `TaktiqAbas.buildVehicle` is the working version.
- The `db.*` classes are not part of this model. `Product`, `ProdPlan` and its rows are datatypes holding only the fields the pass reads.
- The Europe/Berlin time-zone rules are the parameter `atZone`. The output's offset text is derived from it, but the rules themselves are not modelled.
- The system clock is the parameter `now`, and `synchronized` (concurrency) is not modelled.
- Console output is not modelled: the messages of `removePattern` and `LabelGenerator.main`.
- The file handling of `GitIgnore` (existence check, reader, writer) is not modelled; the file is a sequence of lines. `getGitIgnoreEntries`/`setGitIgnoreEntries`, which hand out or replace the map object, are not modelled.
- JGit wrappers (`GitCommit`, `GitCommitHistory`, the actions of `GitStatus`, `statusToMap`, `statusMap`) are not modelled.
- `UnipiDeviceAO` (floating-point values), `WitzeApi`, `SystemdServiceManager` and the console apps are not modelled.
- Getters and plain setters of `RestfulObject`, `UnipiDevice` and `UnipiDeviceRO` are not modelled; they change or return one field.
- `UnipiDevice.toString`/`UnipiDeviceRO.toString` are `toJson().toString()`; JSON text is not modelled.
- A null JSON argument to `fromJson` or the Unipi constructors is not modelled (it throws NullPointerException before anything is read).
- QueryStrings.AddParametersToUrl: does not model a null element of the values list; values are `seq<string>`. It also does not model a null base URL, on which `new StringBuilder(baseUrl)` throws NullPointerException (api/HttpHandler.java:35). `URLEncoder.encode` is the parameter `enc`.
- AssemblySuite.Request: `new URL` is modelled only as far as the protocol. It trims surrounding whitespace and skips a leading "url:"; these are not modelled. A protocol name is checked on ASCII letters, while Java accepts any Unicode letter. Later checks of the URL's syntax, such as an invalid port of an https URL, are part of `answer`. A jar URL without "!/" throws MalformedURLException in Java; the model gives ClassCastException. Protocol handlers beyond the JDK's standard ones are not modelled.
- Json.AsLong: a `JNum` is a parsed integral number, which json-simple holds as a `Long`. A `Double` (a fractional number) or an `Integer` put in by hand makes the `(Long)` cast throw; the model does not tell these apart, so it accepts them. `LabelPageReadsBack` therefore holds for a page read back from its JSON text, not for the in-memory object.
- JavaTime.ParseCompact: rejects years past 9999. `yyyy` in `ofPattern` accepts a '+' sign followed by more than four year digits (for example "+123450101120000" is year 12345); only the fourteen-digit form is modelled.
- JavaTime.ParseDotted: rejects years past 9999 written with a '+' sign, for the same reason as `ParseCompact`.
- AssemblySuite.TaktiqAssemblySuite.GetVehicles: `response` is the answer of an orders request taken to succeed. The source's relative URL never opens (`OrdersRequestNeverOpens`), so in the source this method always throws before reading anything.
- GitIgnoreTable.LoadAfterSaveCommentedRoundTrip: holds only for comments that do not end with '#' followed by U+0085, U+2028 or U+2029. `$` matches before such a final terminator, so the '#' is lost on reading (`CommentHashBeforeLineEndLost`); `CommentWritable` excludes these comments.
- GitIgnoreTable.GitIgnore.SaveGitIgnore: the file's lines equal `SaveLines` only for patterns and comments without line terminators; `readLine` would split an entry that holds '\n' or '\r', and `PlainText`/`CommentWritable` exclude them.
- AssemblySuite.TaktiqAssemblySuite.GetVehicleSequencePos: the `Integer` counter is unbounded; a list longer than Integer.MAX_VALUE cannot exist in Java.
- MesFields.MesSatz.PadWert: the StringBuilder's `int` length is unbounded; a width near Integer.MAX_VALUE would overflow in Java.
- TaktiqVehicles.TaktiqVehicle.ToJson: the features list is written as a JSON array of strings and nulls; json-simple's own text form of a `List` is not modelled.

## Findings

| source | as written | input that shows it | evidently intended | confidence | as-written member | corrected member |
|---|---|---|---|---|---|---|
| api/TaktiqAssemblySuite.java:129-138 | `getSeries` accepts only a 9-character argument, then tests `getSeriesNumber().startsWith(argument)`. A series number is 4 characters (api/TaktiqVehicles.java:48), so nothing ever matches. Records read by `getVehicles` have a null series number, so the test throws NullPointerException. | argument "123456789", batch record with series "1234": nothing selected. A batch loaded from JSON: NullPointerException on the first record. | Take a 4-character series prefix, select the records whose series number starts with it and pass over records without one; any other argument leaves the list unchanged. | not executed | AssemblySuite.TaktiqAssemblySuite.GetSeries, AssemblySuite.SeriesSelectionNeverMatches, AssemblySuite.SeriesSelectionThrowsOnLoaded | AssemblySuite.TaktiqAssemblySuite.GetSeriesByPrefix, AssemblySuite.SeriesOfSelectsOwnOrder, AssemblySuite.SeriesOfKeepsOrder |
| api/TaktiqAssemblySuite.java:50-78 | The constructor throws IOException when the base URL is NOT null, so it only goes on with `baseurl == null`. `authenticate` then opens "null/api/Users/authenticate", which has no protocol, so `new URL` (api/UrlHandler.java:66) throws MalformedURLException. | username "u", password "p", baseurl null: MalformedURLException. Any non-null baseurl: IOException from the guard. | Throw when the base URL is null, and authenticate against the given base URL. | not executed | AssemblySuite.TaktiqAssemblySuite.Create, AssemblySuite.ConstructSpec, AssemblySuite.ConstructorAlwaysThrows | AssemblySuite.TaktiqAssemblySuite.CreateChecked, AssemblySuite.CheckedConstructorReachesServer |
| projects/git/GitIgnore.java:131 | `saveGitIgnore` writes a comment's text without a leading "#". | pattern "x" with comment "note" is saved as ["", "note", "x"]; loading it gives patterns "note" and "x", both with comment "". | Write "# " + comment, so that load after save gives the table back. | not executed | GitIgnoreTable.LoadAfterSaveNotIdentity | GitIgnoreTable.LoadAfterSaveCommentedRoundTrip |
