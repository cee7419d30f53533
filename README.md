# Wallapop motorcycle scraper — a Dafny model

A model of the core of a scraper that searches Wallapop for second-hand
motorcycles of five models (Honda CB125R, Honda PCX125, Kymco Agility 125,
Kawasaki Z900, Yamaha MT-07), together with proofs about it. The pipeline
it models has these stages:

- **Config**: a per-model table of price, year and kilometre limits, the
  column orders and the excluded columns.
- **Scraping**: for each search URL the base scraper lists the valid
  listing links and visits each one once. From a page it pulls title,
  price, kilometres, year, seller, location and date. A model scraper then
  keeps the record only when its title names the brand and model, names no
  excluded sibling model, and has price and year in range.
- **Cleaning**: the integrated cleaner drops rows without a price, rows
  under the model's minimum price, rows over its kilometre cap, commercial
  sellers, the Balearic and Canary islands, and duplicate URLs.
- **Scoring**: the profitability calculator reads price, kilometres and
  year. It scores each usable listing against the others, sorts the
  listings best first and gives each a category. Listings with unusable
  data go last as "Sin datos".
- **Presentation**: the runner writes a simplified category over the
  calculator's. It then drops the internal columns, orders the columns for
  the local copy and for the sheet, and names the sheet "MODEL dd/mm/yy".
  The Sheets manager turns the frame into an upload table and computes the
  average price and average kilometres.

Files, one module each:

| file | module | models |
|---|---|---|
| wrappers.dfy | Wrappers | Option and Result |
| text.dfy | Text | the Python string operations the core uses: lower/upper, strip, `float()`, `\d+` scans, `str(n)` and `f"{n:,}"` with dots |
| seqs.dfy | Seqs | filters, order-keeping de-duplication (the seen-set loops, `drop_duplicates`) |
| patterns.dfy | Patterns | the word-bounded regular expressions of the validators and year scans |
| frames.dfy | Frames | a pandas DataFrame as columns plus rows of cells (NaN, text, number); dropping, setting and reordering columns |
| config.dfy | Config | src/config.py |
| cleaner.dfy | Cleaner | src/limpiador_integrado.py |
| scorer.dfy | Scorer | src/rentabilidad_calculator.py |
| base_scraper.dfy | BaseScraper | src/scrapers/base_scraper.py: link collection, field extraction, the visiting loop, the scraper's state |
| listing_checks.dfy | ListingChecks | the validate_moto_data shared by four model scrapers |
| search_urls.dfy | SearchUrls | get_search_urls of the extended layout |
| scraper_cb125r.dfy, scraper_pcx125.dfy, scraper_agility125.dfy, scraper_z900.dfy, scraper_mt07.dfy | Cb125rScraper, … | src/scrapers/scraper_*.py |
| sheets.dfy | Sheets | src/google_sheets_manager.py |
| runner.dfy | Runner | src/main_runner.py |

How the source's constructs are modelled:

- Loops that build lists become methods with loop invariants, proved
  against a specification function. These are the search-URL loops, the
  seen-set de-duplication, the column drop and reorder loops, the
  cleaner's filter stages, the link visiting loop and the upload table.
- The scraper object is a class. Its fields are the results list and the
  set of processed URLs, and its methods keep them coherent.
- Pure helpers are functions.
- The browser is not modelled. What a page yields is an input: its
  title texts, price elements, the numbers and years found on it, and so
  on. Likewise the clock (current year, dates), the GitHub Actions flag,
  `str()` of a float cell (a `repr` function) and whether the calculator
  raises are all parameters.

## Model

| member | source | states |
|---|---|---|
| Config.ColumnListsDistinct | src/config.py:212-230 | neither the column order for the sheets nor the excluded-column list repeats a name |
| Config.GetModeloConfig | src/config.py:277-281 | succeeds exactly for the five configured keys, with that key's entry; otherwise the ValueError message naming the key |
| Config.LookUp | src/config.py:279-281 | a lookup in a key table: found iff some entry has the key, and the entry returned is in the table |
| Config.GetAllModelos | src/config.py:283-285 | the configured keys in table order |
| Config.AllModelosResolve | src/config.py:21-92 | the keys are distinct and every listed key resolves |
| Config.ShippedTableCoherent | src/config.py:21-123 | every shipped model has precio_min below precio_max and año_min no later than año_max, and the weights sum to 1 |
| Config.AsDict | src/config.py:21-92 | a model's entry as a dictionary carries every required field, with its numeric price bounds |
| Config.AsDicts | src/config.py:21-92 | the table of dictionaries lines up with the typed table entry by entry |
| Config.MissingFields | src/config.py:325-328 | every error names a required field the entry lacks, and there is none iff all are present |
| Config.AllModelErrorsEmpty | src/config.py:324-331 | no per-model error iff every model has all fields and precio_min < precio_max (missing prices read as 0) |
| Config.ModelErrorsEmpty | src/config.py:325-331 | no error for one model iff it has all fields and precio_min < precio_max |
| Config.CollectMissing | src/config.py:325-328 | the inner loop yields the missing-field errors of the five required fields, in field order |
| Config.MissingOf | src/config.py:326-328 | the loop over any field list yields exactly that list's missing-field errors, in order |
| Config.MissingFieldsSnoc | src/config.py:326-328 | one more field appends its error exactly when that field is absent |
| Config.CollectModelErrors | src/config.py:325-331 | the loop body for one model: missing fields, then the price-order error |
| Config.AllModelErrorsSnoc | src/config.py:324-331 | the outer loop appends each model's errors after those of the models before it |
| Config.SumWeights | src/config.py:334 | the loop total is the sum of the weights |
| Config.ValidateConfig | src/config.py:319-346 | returns True exactly when the error list is empty, and raises with that list otherwise |
| Config.ConfigErrorsIff | src/config.py:319-346 | no error iff every model is complete and ordered, the weights sum to 1 within 0.01, and the time budget is positive |
| Config.ShippedConfigValid | src/config.py:21-186 | the shipped configuration passes validation in both environments |
| Config.Take | src/config.py:378 | a slice [:n]: a prefix of at most n elements, exactly n when there are enough |
| Config.Renders | src/config.py:373-388 | one URL per specification, in order |
| Config.BasicRow | src/config.py:372-374 | one basic URL per ordering for a query, in ordering order |
| Config.RegionalRow | src/config.py:379-381 | one regional URL per ordering for a region and query |
| Config.YearRow | src/config.py:386-389 | one year URL per query for a year |
| Config.BasicSpecs | src/config.py:371-374 | exactly the basic URLs: every pair of a query and an ordering, nothing else |
| Config.RegionBlock | src/config.py:378-381 | a region's URLs use only that region, the given queries and orderings |
| Config.RegionSpecs | src/config.py:377-381 | regional URLs use only the configured regions, queries and orderings |
| Config.YearSpecs | src/config.py:384-389 | a year URL exists for exactly the search years within the model's year range and each query |
| Config.RendersConcat | src/config.py:366-389 | the URLs of two specification lists appended are the two URL lists appended |
| Config.BasicUrls | src/config.py:371-374 | the nested loop over queries and orderings appends the basic URLs in order |
| Config.RegionBlockUrls | src/config.py:378-381 | the loops for one region append its URLs in order |
| Config.RegionalUrls | src/config.py:377-381 | the region loop appends every region's block in order |
| Config.YearRowUrls | src/config.py:386-389 | the loop for one year appends its URLs in order |
| Config.YearUrls | src/config.py:384-389 | the year loop skips years outside the model's range and appends the rest in order |
| Config.GenerateExtendedUrls | src/config.py:352-394 | fails iff the key is unknown (with get_modelo_config's error); otherwise the de-duplicated URL list of the three loops |
| Config.UrlsCarryPriceFilter | src/config.py:373-392 | every generated URL is a Wallapop search carrying the model's price filter |
| Config.RenderCarriesPriceFilter | src/config.py:373-388 | each URL form starts with the search prefix and carries the price filter |
| Config.RegionalCarries | src/config.py:380 | the regional URL starts with the search prefix and carries the price filter |
| Config.ByYearCarries | src/config.py:387-388 | the year URL starts with the search prefix and carries the price filter |
| Config.SpecsRespectLimits | src/config.py:377-389 | regions use only the first 3 queries and orderings, years only the first 2 queries and in-range years, and every query meets every ordering |
| Config.GeneratedUrlsDistinct | src/config.py:391-394 | the result has no duplicate and still holds every URL built |
| Frames.PresentText | src/limpiador_integrado.py:152-153 | a cell is skipped as absent iff it is NaN, the empty text, or a zero number; otherwise its text |
| Text.Lower | src/scrapers/scraper_pcx125.py:180-181 | str.lower(): same length, each letter lowered |
| Text.Upper | src/google_sheets_manager.py:164 | str.upper(): same length, each letter raised |
| Text.NatToString | src/scrapers/base_scraper.py:444 | str(n): decimal digits reading back as n, without a leading zero |
| Text.NatToStringInjective | src/scrapers/base_scraper.py:444 | different numbers have different decimal texts |
| Text.Grouped | src/scrapers/base_scraper.py:446 | f"{n:,}" with commas replaced by dots: digits and dots, starting with a digit |
| Text.GroupedDigits | src/scrapers/base_scraper.py:446 | removing the dots from the grouped text gives the digits of n |
| Text.GroupedDots | src/scrapers/base_scraper.py:755 | the grouped text has no dot below 1000 and one dot below a million |
| Text.GroupedSplit | src/scrapers/base_scraper.py:755 | between 1000 and 999999 it is the thousands, a dot, and three padded digits |
| Text.FirstNumber | src/google_sheets_manager.py:299-300 | re.findall(r'\d+', s)[0] as a number: present iff s has a digit |
| Text.KeepDigits | src/scrapers/scraper_cb125r.py:198-200 | the digits of s joined, empty iff s has no digit |
| Text.PyFloat | src/google_sheets_manager.py:229 | float(s) on texts of digits and dots; never negative |
| Text.PyFloatOfDigits | src/google_sheets_manager.py:229 | float of a digit string is its value |
| Text.PyFloatDecimal | src/google_sheets_manager.py:229 | float of "w.f" is the decimal value |
| Text.PyFloatNeedsDigit | src/google_sheets_manager.py:229 | float succeeds only on a text with a digit |
| Text.PyFloatRejectsComma | src/google_sheets_manager.py:238-239 | a comma makes float raise, so the category is "No calculada" |
| Text.PyFloatErrors | src/google_sheets_manager.py:238-239 | float(".") and float("") raise |
| Text.PyFloatHalves | src/google_sheets_manager.py:229 | float("5.") is 5.0 and float(".5") is 0.5 |
| Patterns.First20Year | src/scrapers/scraper_pcx125.py:268-270 | re.search(r'(20[0-9]{2})'): any year found is in 2000-2099 |
| Patterns.First20YearNeedsDigit | src/scrapers/scraper_pcx125.py:268-270 | no year is found in a text without digits |
| Patterns.YearScansOfYear | src/scrapers/scraper_pcx125.py:268-270 | the text of a year 20xx scans back as that year |
| Seqs.DedupProperties | src/scrapers/scraper_pcx125.py:158-164 | keeping first occurrences leaves no duplicate, the same members, in their order |
| Seqs.DedupSnoc | src/scrapers/scraper_pcx125.py:160-164 | a new element is appended iff it was not seen |
| Cleaner.FloatOr0 | src/limpiador_integrado.py:172-215 | a float() that fails inside the try counts as 0.0; never negative, and 0 when there is no digit |
| Cleaner.FirstRunOr0 | src/limpiador_integrado.py:207-210 | the first run of digits as a number, 0.0 when there is none |
| Cleaner.ExtractPriceNumber | src/limpiador_integrado.py:161-215 | the price reader never returns a negative number |
| Cleaner.ExtractKmNumber | src/limpiador_integrado.py:273-309 | the kilometre reader never returns a negative number |
| Cleaner.KeepNumberCharsNoDigit | src/limpiador_integrado.py:167 | keeping only digits, commas and dots cannot create a digit |
| Cleaner.RemoveCharNoDigit | src/limpiador_integrado.py:177-180 | removing a character cannot create a digit |
| Cleaner.NoDigitParts | src/limpiador_integrado.py:175-178 | the parts around a separator of a digit-free string are digit-free |
| Cleaner.ExtractPriceOfDigitless | src/limpiador_integrado.py:161-215 | a price text without a digit reads as 0.0 |
| Cleaner.ExtractKmOfDigitless | src/limpiador_integrado.py:273-309 | a kilometre text without a digit reads as 0.0 |
| Cleaner.ExtractPriceOfGrouped | src/limpiador_integrado.py:161-215 | "7.690 €"-style text (dot thousands, any non-numeric tail) reads back as the number |
| Cleaner.ExtractKmOfGrouped | src/limpiador_integrado.py:273-309 | "25.000 km"-style text below a million reads back as the number |
| Cleaner.GroupedThenInert | src/limpiador_integrado.py:167 | the cleaning regex keeps a grouped number and drops a tail without digits or separators |
| Cleaner.SameNumberChars | src/limpiador_integrado.py:166-167 | both readers depend only on the digits, commas and dots of the text |
| Cleaner.SamePriceChars | src/limpiador_integrado.py:166-167 | the price reader depends only on the kept characters |
| Cleaner.SameKmChars | src/limpiador_integrado.py:278-279 | the kilometre reader depends only on the kept characters |
| Cleaner.GroupedReadsBack | src/limpiador_integrado.py:161-309 | a dot-grouped number reads back exactly (kilometres below a million) |
| Cleaner.SplitAround | src/limpiador_integrado.py:175 | splitting on a lone separator gives the parts either side |
| Cleaner.CommaJoined | src/limpiador_integrado.py:192-195 | a digits-comma-digits text has one comma, no dot, and its parts |
| Cleaner.CommaJoinedKept | src/limpiador_integrado.py:167 | digits joined by a comma survive the cleaning regex |
| Cleaner.CommaRemoved | src/limpiador_integrado.py:180 | removing the comma joins the digit parts |
| Cleaner.NoCommaRemoved | src/limpiador_integrado.py:180 | removing commas from pure digits changes nothing |
| Cleaner.ExtractPriceSpanishDecimal | src/limpiador_integrado.py:173-178 | "12.500,90": dot thousands with one or two decimals after the comma read as that decimal number |
| Cleaner.SpanishDecimalGrouped | src/limpiador_integrado.py:174-178 | the mixed-separator branch drops the dots and reads the comma as the decimal point |
| Cleaner.SpanishDecimalPlain | src/limpiador_integrado.py:192-195 | a comma with one or two digits after it is a decimal comma |
| Cleaner.ExtractPriceCommaThousands | src/limpiador_integrado.py:192-210 | "7,690" falls through to the first digit run and reads as 7, not 7690 |
| Cleaner.CommaThousands | src/limpiador_integrado.py:192-210 | a comma followed by three or more digits reads as the digits before it |
| Cleaner.FirstRunBeforeComma | src/limpiador_integrado.py:208-210 | the first digit run of digits-comma-anything is the leading digits |
| Cleaner.LoneCommaBeforeThree | src/limpiador_integrado.py:192-210 | with a lone comma and more than two digits after it, the reader takes the first digit run |
| Cleaner.ExtractPriceDotDecimal | src/limpiador_integrado.py:183-187 | a lone dot with at most two digits after it is a decimal point |
| Cleaner.ExtractPriceExampleCommaThousands | src/limpiador_integrado.py:192-210 | "7,690" reads as 7.0 |
| Cleaner.MinPrice | src/limpiador_integrado.py:131-148 | the minimum price is never below the global 500 |
| Cleaner.MinPriceShipped | src/limpiador_integrado.py:131-148 | CB125R 1000, PCX125 and Agility125 600, Z900 and MT-07 2500 |
| Cleaner.MinPriceCB125R | src/limpiador_integrado.py:142-144 | "honda cb125r" hits only the 125 branch: 1000 |
| Cleaner.WordsCB125R | src/limpiador_integrado.py:136-142 | "honda cb125r" contains no scooter or large-bike keyword but contains "125" |
| Cleaner.MinPriceOf125 | src/limpiador_integrado.py:136-144 | a name with "125" and no earlier keyword gets 1000 |
| Cleaner.NameCB125R | src/limpiador_integrado.py:133 | the lower-cased CB125R name |
| Cleaner.NoScooterWord | src/limpiador_integrado.py:136 | without 'g' and 'p' neither scooter keyword occurs |
| Cleaner.NoLargeBikeWord | src/limpiador_integrado.py:139 | without 'z' and 'm' no large-bike keyword occurs |
| Cleaner.MinPriceScooters | src/limpiador_integrado.py:136-138 | both scooters hit the first branch: 600 |
| Cleaner.NamePCX125 | src/limpiador_integrado.py:133 | the lower-cased PCX125 name |
| Cleaner.NameAGILITY125 | src/limpiador_integrado.py:133 | the lower-cased Agility125 name |
| Cleaner.MinPriceZ900 | src/limpiador_integrado.py:139-141 | the Z900 hits the large-bike branch: 2500 |
| Cleaner.NameZ900 | src/limpiador_integrado.py:133 | the lower-cased Z900 name |
| Cleaner.MinPriceMT07 | src/limpiador_integrado.py:139-141 | the MT-07 hits the large-bike branch: 2500 |
| Cleaner.NameMT07 | src/limpiador_integrado.py:133 | the lower-cased MT-07 name |
| Cleaner.UpperCasePatternsNeverMatch | src/limpiador_integrado.py:222-241 | the upper-case S.L., S.A. and Ltd patterns never match lower-cased text |
| Cleaner.AsWrittenIgnoresSuffixes | src/limpiador_integrado.py:217-244 | as written, the commercial test behaves as if those three patterns were absent |
| Cleaner.SellerTestsDiffer | src/limpiador_integrado.py:217-244 | the corrected seller test flags exactly what the test as written flags plus the texts with a lower-case company suffix |
| Cleaner.SuffixCaseCounterexample | src/limpiador_integrado.py:232-241 | "Motos S.A" passes as private as written but is commercial with lower-case patterns |
| Cleaner.SuffixCaseNoKeyword | src/limpiador_integrado.py:222-237 | "motos s.a" contains no keyword, phone number or '@' |
| Cleaner.NoKeywordInMotosSA | src/config.py:142-146 | no commercial keyword occurs in "motos s.a" |
| Cleaner.NoEarlyKeywordInMotosSA | src/config.py:143-144 | none of the first nine keywords occurs in "motos s.a" |
| Cleaner.NoLateKeywordInMotosSA | src/config.py:144-145 | none of the remaining keywords occurs in "motos s.a" |
| Cleaner.IslandNamed | src/limpiador_integrado.py:246-260 | any location containing a configured island name, in any letter case, is an island location |
| Cleaner.PriceThreshold | src/limpiador_integrado.py:150-159 | a grouped price text is valid iff its number reaches the minimum |
| Cleaner.KmThreshold | src/limpiador_integrado.py:262-271 | a grouped kilometre text is valid iff its number is at most the maximum |
| Cleaner.FilterIf | src/limpiador_integrado.py:91-117 | a conditional filter never adds rows |
| Cleaner.FilterIfSubseq | src/limpiador_integrado.py:91-117 | a filter step keeps rows in their original order |
| Cleaner.FilterIfMembers | src/limpiador_integrado.py:91-117 | a row survives iff it was there and, when the column exists, passes the test |
| Cleaner.Stages | src/limpiador_integrado.py:81-117 | six stages from the input rows, each no longer than the one before |
| Cleaner.FirstPerUrl | src/limpiador_integrado.py:84-86 | dropping duplicate URLs never adds rows |
| Cleaner.FirstPerUrlSubseq | src/limpiador_integrado.py:84-86 | duplicate removal keeps rows in order |
| Cleaner.StagesSubseq | src/limpiador_integrado.py:81-117 | every stage is an order-preserving selection of the one before |
| Cleaner.EmptyStats | src/limpiador_integrado.py:311-324 | the empty statistics: all counts and km_maximo 0, the model's minimum price |
| Cleaner.StageStats | src/limpiador_integrado.py:66-121 | inicial and final count the first and last stage, and the five removal counts add up to total_eliminados |
| Cleaner.FilterStep | src/limpiador_integrado.py:91-117 | one filter step: the kept rows and how many were dropped |
| Cleaner.DedupStep | src/limpiador_integrado.py:84-88 | first occurrence per URL, and how many duplicates went |
| Cleaner.RunSteps | src/limpiador_integrado.py:81-121 | the five steps in order give the last stage and its statistics |
| Cleaner.CleanData | src/limpiador_integrado.py:49-125 | an empty frame comes back unchanged with empty statistics; otherwise the filtered rows, same columns, and the statistics of the stages |
| Cleaner.CleanedSubseq | src/limpiador_integrado.py:81-125 | the cleaned rows are an order-preserving selection of the input |
| Cleaner.CleanedMembers | src/limpiador_integrado.py:84-117 | a row is kept iff it is the first of its URL and passes every test whose column exists |
| Cleaner.FirstPerUrlMembers | src/limpiador_integrado.py:84-86 | a row survives deduplication iff it occurs at a position where its URL has not appeared before |
| Cleaner.CleanedUrlsDistinct | src/limpiador_integrado.py:84-86 | after cleaning no URL repeats |
| Cleaner.CleanIdempotent | src/limpiador_integrado.py:49-125 | cleaning the cleaned rows again changes nothing |
| Cleaner.KeepAllIf | src/limpiador_integrado.py:91-117 | a filter whose test every row passes keeps every row |
| Scorer.PriceValue | src/rentabilidad_calculator.py:147-180 | the calculator's price reader never returns a negative number |
| Scorer.ExtractPrice | src/rentabilidad_calculator.py:142-180 | a missing or empty price cell reads as 0.0, and no price is negative |
| Scorer.PriceValueOfGrouped | src/rentabilidad_calculator.py:147-180 | "7.690 €"-style text reads back as the number |
| Scorer.SameKeptPrice | src/rentabilidad_calculator.py:148-150 | the price depends only on the digits, commas and dots of the text |
| Scorer.GroupedPriceValue | src/rentabilidad_calculator.py:170-177 | a dot-grouped number reads back exactly |
| Scorer.UndottedPriceValue | src/rentabilidad_calculator.py:176-177 | pure digits read as their value |
| Scorer.DottedPriceValue | src/rentabilidad_calculator.py:170-175 | dots that are not a two-decimal point are thousands separators |
| Scorer.PriceValueCommaThousands | src/rentabilidad_calculator.py:164-169 | "7,690": a comma before three or more digits is dropped, giving 7690 |
| Scorer.PriceReadersDisagree | src/rentabilidad_calculator.py:164-169 | on "7,690"-style text the cleaner reads less than the calculator: 7 against 7690 |
| Scorer.AppendingDigitsGrows | src/rentabilidad_calculator.py:169 | digits followed by at least three more are worth more than the leading digits |
| Scorer.DigitsOfConcat | src/rentabilidad_calculator.py:169 | two digit strings joined are a digit string |
| Scorer.KmReading | src/rentabilidad_calculator.py:191-193 | the first digit run after dropping dots and commas; never negative |
| Scorer.KmValueAsWritten | src/rentabilidad_calculator.py:182-204 | the kilometre reader as written never returns a negative number |
| Scorer.KmValue | src/rentabilidad_calculator.py:182-204 | the corrected kilometre reader, dividing by 1000 only for metres, never returns a negative number |
| Scorer.ExtractKm | src/rentabilidad_calculator.py:182-204 | a missing or empty kilometre cell reads as 0.0, and none is negative |
| Scorer.KmReadingOfDigits | src/rentabilidad_calculator.py:191-193 | digits followed by a digit-free tail read as the digits |
| Scorer.KmReadingOfGrouped | src/rentabilidad_calculator.py:191-193 | a dot-grouped number reads back exactly |
| Scorer.KmValueOfGrouped | src/rentabilidad_calculator.py:182-204 | "25.000 km" reads as 25000 as written and corrected |
| Scorer.KilometresCounterexample | src/rentabilidad_calculator.py:196-197 | "12000 kilómetros" reads as 12 as written, because "kilómetros" contains "metro"; corrected it reads 12000 |
| Scorer.KmReadersDiffer | src/rentabilidad_calculator.py:182-204 | the corrected and as-written kilometre readers differ exactly on a "kilómetro" or "kilometro" text reading above 10000, which as written is divided by 1000 |
| Scorer.KilometresLower | src/rentabilidad_calculator.py:188 | lower-casing leaves "<digits> kilómetros" unchanged |
| Scorer.KilometresWords | src/rentabilidad_calculator.py:196 | "<digits> kilómetros" contains both "metro" and "kilómetro" |
| Scorer.MetresConverted | src/rentabilidad_calculator.py:195-197 | over 10000 metres is converted to kilometres |
| Scorer.MetresLower | src/rentabilidad_calculator.py:188 | lower-casing leaves "<digits> metros" unchanged |
| Scorer.MetresWords | src/rentabilidad_calculator.py:196 | "<digits> metros" mentions metres and not kilometres |
| Scorer.YearValue | src/rentabilidad_calculator.py:211-226 | a year is 0 or between 1990 and next year |
| Scorer.ExtractYear | src/rentabilidad_calculator.py:206-226 | a missing cell gives 0; any year found is between 1990 and next year |
| Scorer.FirstYearDecides | src/rentabilidad_calculator.py:215-223 | text starting with a 19xx/20xx year gives that year when it is plausible, else 0 |
| Scorer.SeqBounds | src/rentabilidad_calculator.py:234-235 | min and max bound every value and occur in the series |
| Scorer.SeqBetween | src/rentabilidad_calculator.py:234-235 | every value lies between min and max |
| Scorer.SeqExtremesOccur | src/rentabilidad_calculator.py:234-235 | min and max are values of the series |
| Scorer.SeqMinLeMax | src/rentabilidad_calculator.py:234-235 | min is at most max |
| Scorer.DivSign | src/rentabilidad_calculator.py:237 | dividing by a positive range keeps the sign |
| Scorer.DivSub | src/rentabilidad_calculator.py:237 | differences of shares are shares of differences |
| Scorer.DivScale | src/rentabilidad_calculator.py:237 | scaling by 10 commutes with the division |
| Scorer.DivShare | src/rentabilidad_calculator.py:237 | a part of the range is at most the whole share, equal only for the whole range |
| Scorer.ScaledProperties | src/rentabilidad_calculator.py:237-239 | a scaled score is in [0, 10], 10 exactly at the top, 0 exactly at the bottom, and monotone |
| Scorer.InverseScores | src/rentabilidad_calculator.py:228-239 | one score per value; with a spread, 10 * (max - x) / (max - min) |
| Scorer.DirectScores | src/rentabilidad_calculator.py:254-265 | one score per value; with a spread, 10 * (x - min) / (max - min) |
| Scorer.InverseScoresRange | src/rentabilidad_calculator.py:228-239 | every price or kilometre score is in [0, 10], and 5 when every value is equal |
| Scorer.InverseScoresExtremes | src/rentabilidad_calculator.py:237 | the cheapest (fewest km) scores 10 and the dearest scores 0, and only they |
| Scorer.ScaledEnds | src/rentabilidad_calculator.py:237-263 | the ends of the range map to 0 and 10 and nothing else does |
| Scorer.InverseScoresAntitone | src/rentabilidad_calculator.py:228-252 | a lower price or km never scores lower, and a strictly lower one scores strictly higher |
| Scorer.DirectScoresRange | src/rentabilidad_calculator.py:254-265 | every year score is in [0, 10], and 5 when all years are equal |
| Scorer.DirectScoresExtremes | src/rentabilidad_calculator.py:263 | the newest scores 10 and the oldest 0, and only they |
| Scorer.DirectScoresMonotone | src/rentabilidad_calculator.py:254-265 | a newer bike never scores lower, a strictly newer one strictly higher |
| Scorer.PricesOf | src/rentabilidad_calculator.py:78 | the price column of the valid rows |
| Scorer.KmsOf | src/rentabilidad_calculator.py:79 | the kilometre column of the valid rows |
| Scorer.YearsOf | src/rentabilidad_calculator.py:80 | the year column of the valid rows |
| Scorer.CompositeScores | src/rentabilidad_calculator.py:83-87 | one weighted total per valid row |
| Scorer.CompositeInRange | src/rentabilidad_calculator.py:83-87 | every weighted total is in [0, 10] |
| Scorer.CheaperScoresHigher | src/rentabilidad_calculator.py:78-87 | with equal km and year, the cheaper bike gets the strictly higher total |
| Scorer.Reached | src/rentabilidad_calculator.py:273-286 | how many category thresholds a percentage reaches, at most their number |
| Scorer.ReachedMonotone | src/rentabilidad_calculator.py:275-286 | a higher percentage reaches at least as many thresholds |
| Scorer.CategoriaIsTier | src/rentabilidad_calculator.py:267-286 | the category is the tier of the number of thresholds (25, 40, 55, 70, 85) the percentage reaches |
| Scorer.CategoriaMonotone | src/rentabilidad_calculator.py:267-286 | a higher score never gets a lower category |
| Scorer.InsertDesc | src/rentabilidad_calculator.py:93 | inserting into the ranking adds exactly that row, and the head is the larger |
| Scorer.InsertDescSorted | src/rentabilidad_calculator.py:93 | insertion keeps the ranking in descending total |
| Scorer.SortedDescTail | src/rentabilidad_calculator.py:93 | the tail of a ranking is a ranking |
| Scorer.SortedDescCons | src/rentabilidad_calculator.py:93 | a row no smaller than the head extends a ranking |
| Scorer.SortByTotal | src/rentabilidad_calculator.py:93 | sort_values descending: sorted by total and a permutation of its input |
| Scorer.ReadRow | src/rentabilidad_calculator.py:60-62 | the three readings of a row: non-negative price and km, a plausible year or 0 |
| Scorer.Readings | src/rentabilidad_calculator.py:60-62 | one reading per row |
| Scorer.UsableRows | src/rentabilidad_calculator.py:65-69 | the valid rows, drawn from the input, one per usable reading |
| Scorer.UnusableRows | src/rentabilidad_calculator.py:96 | the invalid rows; together with the valid ones they are all the rows |
| Scorer.Label | src/rentabilidad_calculator.py:90-106 | the published row: its category set and the auxiliary columns gone |
| Scorer.Ranked | src/rentabilidad_calculator.py:78-90 | one scored row per valid row |
| Scorer.Unranked | src/rentabilidad_calculator.py:96-98 | one "Sin datos" row per invalid row |
| Scorer.RowsOf | src/rentabilidad_calculator.py:93-99 | the rows of a ranking, in order |
| Scorer.AddColumns | src/rentabilidad_calculator.py:60-90 | adding columns gives exactly the old and new names |
| Scorer.RankedColumns | src/rentabilidad_calculator.py:99-106 | the published columns: the input ones plus Rentabilidad, without the auxiliary ones |
| Scorer.PriceCells | src/rentabilidad_calculator.py:60 | one price reading per row |
| Scorer.KmCells | src/rentabilidad_calculator.py:61 | one kilometre reading per row |
| Scorer.YearCells | src/rentabilidad_calculator.py:62 | one year reading per row |
| Scorer.WithReadings | src/rentabilidad_calculator.py:60-62 | adding the reading columns keeps every row |
| Scorer.NoDataFrame | src/rentabilidad_calculator.py:71-75 | with no valid row, every row is kept |
| Scorer.CalculateRentabilidad | src/rentabilidad_calculator.py:38-117 | an empty frame, or one without Precio, Kilometraje or Año (the KeyError path), comes back unchanged; with no valid row, every row "Sin datos" in the desired column order; otherwise a ranking sorted by total, a permutation of the scored valid rows, followed by the invalid rows |
| Scorer.InputsInEveryRow | src/rentabilidad_calculator.py:60-62 | every row has the three input columns when the frame has them |
| Scorer.ReadingsStep | src/rentabilidad_calculator.py:60-62 | reading one more row appends its reading |
| Scorer.UsableRowsStep | src/rentabilidad_calculator.py:65-69 | one more row is kept iff its reading is usable |
| Scorer.RankedFrameWellFormed | src/rentabilidad_calculator.py:99-109 | the ranked frame has distinct columns and every row fits them |
| Scorer.FitsReordered | src/rentabilidad_calculator.py:109 | reordering columns keeps every row fitting |
| Scorer.RankedRowsFit | src/rentabilidad_calculator.py:93-106 | every published row has exactly the published columns |
| Scorer.FitsConcat | src/rentabilidad_calculator.py:99 | concatenating frames whose rows fit keeps them fitting |
| Scorer.SortedRowFits | src/rentabilidad_calculator.py:93-106 | every sorted row has the published columns |
| Scorer.RankedRowFits | src/rentabilidad_calculator.py:90-106 | every scored row has the published columns |
| Scorer.UnrankedRowFits | src/rentabilidad_calculator.py:96-106 | every "Sin datos" row has the published columns |
| Scorer.RankedColumnsDistinct | src/rentabilidad_calculator.py:99-106 | the published columns do not repeat |
| Scorer.AddColumnsDistinct | src/rentabilidad_calculator.py:60-90 | adding columns by name never repeats one |
| Scorer.RankedEntry | src/rentabilidad_calculator.py:78-90 | a scored row is the valid row labelled with the category of its total, which is in [0, 10] |
| Scorer.RowsOfConcat | src/rentabilidad_calculator.py:99 | rows of a concatenation are the concatenated rows |
| Scorer.RowsOfPermutation | src/rentabilidad_calculator.py:93 | permuting a ranking permutes its rows |
| Scorer.RowsOfRemoveAt | src/rentabilidad_calculator.py:93 | removing one entry removes its row from the multiset |
| Scorer.RankedPermutation | src/rentabilidad_calculator.py:93-99 | one published row per input row: the scored valid rows and the "Sin datos" rows, as a multiset |
| Scorer.RankedHead | src/rentabilidad_calculator.py:90-99 | each leading row is some valid row labelled with its category |
| Scorer.RankedOrder | src/rentabilidad_calculator.py:90-93 | down the ranking the total never rises, nor the category |
| Scorer.SortedOrder | src/rentabilidad_calculator.py:93 | in a descending ranking the later total and category are no higher |
| Scorer.RankedTail | src/rentabilidad_calculator.py:95-99 | after the ranked rows come the invalid rows in input order, "Sin datos" |
| Scorer.RankedLayout | src/rentabilidad_calculator.py:93-109 | the ranked frame keeps one row per input row |
| Scorer.NoDataLayout | src/rentabilidad_calculator.py:71-75 | with no valid row, each row reads "Sin datos" and the reading columns stay published |
| BaseScraper.ExcludedWordRejects | src/scrapers/base_scraper.py:761-777 | a link containing any excluded word is refused |
| BaseScraper.UpperCaseWordRejects | src/scrapers/base_scraper.py:773-775 | the check lower-cases the URL, so "PROMOTED" is refused too |
| BaseScraper.ItemLinkValidIff | src/scrapers/base_scraper.py:761-777 | any URL with an /item/ path is accepted iff its lower-cased text contains none of the excluded words |
| BaseScraper.ProductLinkValidIff | src/scrapers/base_scraper.py:761-777 | any URL with a /product/ path is accepted iff its lower-cased text contains none of the excluded words |
| BaseScraper.CollectLinks | src/scrapers/base_scraper.py:231-268 | the links kept: the listing hrefs, first occurrence each, then only the valid ones |
| BaseScraper.ListedLinks | src/scrapers/base_scraper.py:252-258 | the selector loop collects each listing href once, first occurrence first |
| BaseScraper.NoListingPathInEmpty | src/scrapers/base_scraper.py:257 | an empty href is never collected |
| BaseScraper.FirstMatching | src/scrapers/base_scraper.py:255-258 | collecting hrefs that pass a test and are not yet listed gives the de-duplicated filtered list |
| BaseScraper.ValidLinks | src/scrapers/base_scraper.py:263-266 | the validity loop keeps exactly the valid links, in order |
| BaseScraper.CollectedLinksProperties | src/scrapers/base_scraper.py:231-268 | the links have no duplicate, are exactly the valid hrefs, and keep page order |
| BaseScraper.Within | src/scrapers/base_scraper.py:433-434 | the candidates in range: exactly the values within the bounds |
| BaseScraper.WithinConcat | src/scrapers/base_scraper.py:422-434 | candidates of two match lists appended are the two candidate lists appended |
| BaseScraper.WithinStep | src/scrapers/base_scraper.py:424-434 | one more match adds itself iff it is in range |
| BaseScraper.FirstInRange | src/scrapers/base_scraper.py:744-755 | the first value in range, or none iff no value is in range |
| BaseScraper.WithinFirst | src/scrapers/base_scraper.py:744-755 | the first in-range value is the head of the in-range list |
| BaseScraper.FirstInRangeSnoc | src/scrapers/base_scraper.py:744-755 | a later value matters only when no earlier one was in range |
| BaseScraper.MaxOf | src/scrapers/base_scraper.py:713-715 | the largest value, which occurs in the list |
| BaseScraper.FlattenStep | src/scrapers/base_scraper.py:687-707 | the price values of one more element come after the earlier ones |
| BaseScraper.PriceLabelReadsBack | src/scrapers/base_scraper.py:755 | the "7.690 €" label reads back as the number in both the cleaner and the calculator |
| BaseScraper.PriceLabelIsNotPlaceholder | src/scrapers/base_scraper.py:755 | a price label is never "No especificado" |
| BaseScraper.PriceFromTextMeaning | src/scrapers/base_scraper.py:726-759 | "No especificado" iff the cleaned text is empty or no match is in 500-60000; otherwise the label of the first match in range, which reads back as that value |
| BaseScraper.FallbackLabelIsPriceLabel | src/scrapers/base_scraper.py:706 | the fallback's two label forms are both the grouped label |
| BaseScraper.FallbackPrice | src/scrapers/base_scraper.py:683-720 | the loop over the first ten € elements gives the label of the largest price in range |
| BaseScraper.FallbackPriceMeaning | src/scrapers/base_scraper.py:683-720 | "No especificado" iff no candidate; otherwise the label of the largest candidate, in 500-60000 |
| BaseScraper.SelectorPrice | src/scrapers/base_scraper.py:670-680 | a price from the selectors is never the placeholder |
| BaseScraper.SelectorPriceReadsBack | src/scrapers/base_scraper.py:670-680 | a selector price is the label of some value in 500-60000 |
| BaseScraper.PrecioReadsBack | src/scrapers/base_scraper.py:647-724 | the price is "No especificado" or the label of a value in 500-60000 that the cleaner reads back |
| BaseScraper.MostFrequent | src/scrapers/base_scraper.py:440 | a value of the list occurring at least as often as any other |
| BaseScraper.KmLabelIsGrouped | src/scrapers/base_scraper.py:441-446 | the three label forms are all the grouped "N km" |
| BaseScraper.KmLabelReadsBack | src/scrapers/base_scraper.py:441-446 | a kilometre label reads back as its number through the calculator's reader as written and corrected, and through the cleaner |
| BaseScraper.ExtractKilometraje | src/scrapers/base_scraper.py:420-448 | the candidate loop and mode give the label of the most frequent in-range value |
| BaseScraper.KilometrajeMeaning | src/scrapers/base_scraper.py:420-448 | "No especificado" iff every match exceeds 200000; otherwise the label of a most frequent in-range match, which reads back as it |
| BaseScraper.Weighted | src/scrapers/base_scraper.py:482-500 | each year found paired with the weight of where it was found |
| BaseScraper.InsertByWeight | src/scrapers/base_scraper.py:506 | insertion adds exactly that candidate |
| BaseScraper.SortByWeight | src/scrapers/base_scraper.py:506 | sorting by weight permutes the candidates |
| BaseScraper.Top | src/scrapers/base_scraper.py:506-507 | the first candidate of the highest weight |
| BaseScraper.SortedHeadIsTop | src/scrapers/base_scraper.py:506-507 | the stable descending sort puts the first heaviest candidate first |
| BaseScraper.TopIsFirstWhenHeaviest | src/scrapers/base_scraper.py:506-507 | when the first candidate is heaviest, it wins |
| BaseScraper.ExtractAnio | src/scrapers/base_scraper.py:478-509 | the two candidate loops and the sort give the year of the heaviest candidate |
| BaseScraper.TitleYearWins | src/scrapers/base_scraper.py:480-509 | the first title year in 2010-2025 wins; failing that the first page year; failing both "No especificado" |
| BaseScraper.HeaviestFirst | src/scrapers/base_scraper.py:488-507 | title candidates (weight 10) come before page candidates (weight 1) |
| BaseScraper.CandidateYearsInRange | src/scrapers/base_scraper.py:487-500 | every candidate year is in 2010-2025 |
| BaseScraper.AnioReadsBack | src/scrapers/base_scraper.py:454-513 | the year is "No especificado" or a year in 2010-2025 that the calculator reads back |
| BaseScraper.FirstText | src/scrapers/base_scraper.py:350-367 | the first stripped text longer than the minimum, or none iff there is none |
| BaseScraper.UbicacionDropsPrefix | src/scrapers/base_scraper.py:605-612 | "en Madrid" becomes "Madrid" |
| BaseScraper.KeywordSellerLabelled | src/scrapers/base_scraper.py:547-571 | a first seller text containing any business keyword, in any letter case, is labelled "Comercial: " followed by that text |
| BaseScraper.LabelledSellerFiltered | src/scrapers/base_scraper.py:569-585 | a seller the scraper labels commercial is dropped by the cleaner's seller test, as written and corrected |
| BaseScraper.LabelFiltered | src/scrapers/base_scraper.py:571 | the cleaner's seller test, as written and corrected, reads "Comercial: ..." as commercial |
| BaseScraper.ExtractAnuncio | src/scrapers/base_scraper.py:300-320 | the listing record built from the page's extracted fields |
| BaseScraper.RecordShape | src/scrapers/base_scraper.py:308-318 | a record has exactly the nine data columns and its own URL |
| BaseScraper.RecordFields | src/scrapers/base_scraper.py:308-318 | a record has no description, and holds the title, price and year given |
| BaseScraper.RecordLacksDescription | src/scrapers/base_scraper.py:308-318 | no record has a Descripcion field |
| BaseScraper.RecordTitulo | src/scrapers/base_scraper.py:310 | the Título field is the title given |
| BaseScraper.RecordPrecio | src/scrapers/base_scraper.py:311 | the Precio field is the price given |
| BaseScraper.RecordAnio | src/scrapers/base_scraper.py:313 | the Año field is the year given |
| BaseScraper.AnuncioDataShape | src/scrapers/base_scraper.py:300-320 | an extracted record has the data columns and its own URL |
| BaseScraper.DataColumnsDistinct | src/scrapers/base_scraper.py:308-318 | the record's column names do not repeat |
| BaseScraper.KeepMeaning | src/scrapers/base_scraper.py:205-218 | a link yields a record iff its page loads and the record validates, and that record is the page's data |
| BaseScraper.VisitPage | src/scrapers/base_scraper.py:205-218 | an unloadable page changes nothing; a new link appends its record and marks it processed iff it validates |
| BaseScraper.VisitLinksStep | src/scrapers/base_scraper.py:198-224 | the link loop visits one more link after the earlier ones |
| BaseScraper.VisitLinkCoherent | src/scrapers/base_scraper.py:205-214 | a visit keeps the bookkeeping coherent: processed URLs are exactly the results' URLs, with no URL twice |
| BaseScraper.VisitLinksCoherent | src/scrapers/base_scraper.py:198-224 | the whole loop keeps that coherence |
| BaseScraper.VisitLinksAppends | src/scrapers/base_scraper.py:198-224 | the loop only appends, and each new result is a new link of the list read as itself |
| BaseScraper.VisitLinksComplete | src/scrapers/base_scraper.py:198-214 | every listed link that yields a record ends up processed |
| BaseScraper.VisitProcessedLinks | src/scrapers/base_scraper.py:205-206 | links already processed are skipped |
| BaseScraper.Window | src/scrapers/base_scraper.py:195-198 | at most 50 links under GitHub Actions, all of them otherwise |
| BaseScraper.Scraper.constructor | src/scrapers/base_scraper.py:40-42 | a new scraper has no results and no processed URLs |
| BaseScraper.Scraper.VisitOne | src/scrapers/base_scraper.py:205-218 | one pass of the link loop updates results and processed URLs as VisitLink says |
| BaseScraper.Scraper.ProcessSearchUrl | src/scrapers/base_scraper.py:175-229 | visits the window of collected links in order, keeping the scraper coherent |
| BaseScraper.Scraper.ScrapeModel | src/scrapers/base_scraper.py:108-155 | visits every search URL in turn and returns the results as a frame, empty when there are none |
| ListingChecks.Field | src/scrapers/scraper_pcx125.py:180-181 | moto_data.get(k, ''): the field's value, or the empty text when the key is missing |
| ListingChecks.CombinedText | src/scrapers/scraper_pcx125.py:180-182 | the lower-cased title, a space, and the lower-cased description; none when either is not text (the lower() call raises and validation answers False) |
| ListingChecks.PriceLabelDigits | src/scrapers/scraper_pcx125.py:250-252 | after the dots and commas are removed, a scraped price label begins with the digits of its value |
| ListingChecks.PriceLabelChecked | src/scrapers/scraper_pcx125.py:244-260 | the price check accepts a scraped "N €" label iff N is within the model's range |
| ListingChecks.DigitFreeAccepted | src/scrapers/scraper_pcx125.py:244-280 | a text with no digit passes both the price and the year check |
| ListingChecks.PlaceholderAccepted | src/scrapers/scraper_pcx125.py:244-280 | "No especificado" passes both the price and the year check |
| ListingChecks.ExtractedPriceChecked | src/scrapers/scraper_pcx125.py:244-260 | the check accepts the scraped price iff it is the placeholder or the label of a value within the range |
| ListingChecks.YearLabelChecked | src/scrapers/scraper_pcx125.py:262-277 | the year check accepts a 20xx year iff it is within the range |
| ListingChecks.ExtractedYearChecked | src/scrapers/scraper_pcx125.py:262-277 | the check accepts the scraped year iff it is the placeholder or a year within the range |
| ListingChecks.RecordFields | src/scrapers/base_scraper.py:308-318 | the fields the validators read are the scraped title, an empty description, the scraped price and year |
| ListingChecks.TitleOnlyText | src/scrapers/scraper_pcx125.py:180-182 | with no description, the combined text is the lower-cased title and a space |
| ListingChecks.ExtractedRecordValid | src/scrapers/scraper_pcx125.py:169-216 | a scraped record validates iff its title names the brand and model and no excluded model, and its price and year are placeholders or in range |
| Cb125rScraper.JoinedDigitsOfLabel | src/scrapers/scraper_cb125r.py:198-200 | the digits the CB125R check joins from a price label are the digits of its value |
| Cb125rScraper.PriceLabelChecked | src/scrapers/scraper_cb125r.py:191-209 | the CB125R price check accepts "N €" iff 1000 <= N <= 4500 |
| Cb125rScraper.DigitsReadBack | src/scrapers/scraper_cb125r.py:191-209 | a text whose joined digits read as n is accepted iff n is in 1000-4500 |
| Cb125rScraper.ExtractedRecordValid | src/scrapers/scraper_cb125r.py:105-152 | a scraped record validates iff its title is Honda (or names the CB125R) and CB125R and not excluded, with price in 1000-4500 and year in 2018-2025 or placeholders |
| Cb125rScraper.ExtractedPriceChecked | src/scrapers/scraper_cb125r.py:191-209 | the check accepts the scraped price iff it is the placeholder or the label of a value in 1000-4500 |
| Cb125rScraper.BareModelIsHonda | src/scrapers/scraper_cb125r.py:165-173 | "cb125r" alone counts as Honda |
| Cb125rScraper.ExcludedDespiteModel | src/scrapers/scraper_cb125r.py:126-136 | "honda cb125r cbr" is Honda and CB125R but still excluded |
| Cb125rScraper.SampleIsHonda | src/scrapers/scraper_cb125r.py:156-163 | "honda cb125r cbr" matches a Honda pattern |
| Cb125rScraper.SampleIsModel | src/scrapers/scraper_cb125r.py:35-41 | "honda cb125r cbr" matches a CB125R pattern |
| Cb125rScraper.SampleIsExcluded | src/scrapers/scraper_cb125r.py:43-52 | "honda cb125r cbr" matches an exclusion pattern |
| Cb125rScraper.Built | src/scrapers/scraper_cb125r.py:77-83 | every URL built is a Wallapop search |
| Cb125rScraper.BuiltStep | src/scrapers/scraper_cb125r.py:77-83 | one more query appends its plain URL and, for the main queries, its newest-first URL |
| Cb125rScraper.GetSearchUrls | src/scrapers/scraper_cb125r.py:56-98 | the URLs built, first occurrence each, cut to 8 under GitHub Actions |
| Cb125rScraper.AppendQueries | src/scrapers/scraper_cb125r.py:77-83 | the query loop appends exactly the URLs the layout prescribes |
| Cb125rScraper.NewestOnlyForMain | src/scrapers/scraper_cb125r.py:82-83 | only "honda%20cb125r" and "cb125r" get a newest-first URL |
| Cb125rScraper.BuiltInFull | src/scrapers/scraper_cb125r.py:64-83 | the eleven URLs built, in order |
| Cb125rScraper.BuiltDistinct | src/scrapers/scraper_cb125r.py:64-83 | those eleven URLs are all different |
| Cb125rScraper.SearchUrlCount | src/scrapers/scraper_cb125r.py:85-96 | 11 URLs, or their first 8 under GitHub Actions, none repeated, all Wallapop searches |
| Pcx125Scraper.ExtractedRecordValid | src/scrapers/scraper_pcx125.py:169-216 | a scraped record validates iff its title is Honda and PCX125 and not excluded, with price in 1200-4000 and year in 2016-2025 or placeholders |
| Pcx125Scraper.BareModelIsNotHonda | src/scrapers/scraper_pcx125.py:218-228 | "pcx 125" without the brand is refused: unlike CB125R, the model does not imply Honda |
| Pcx125Scraper.NoHondaWithoutH | src/scrapers/scraper_pcx125.py:218-228 | a text without the letter h matches no Honda pattern |
| Pcx125Scraper.ExcludedDespiteModel | src/scrapers/scraper_pcx125.py:190-198 | "honda pcx125 sh125" is Honda and PCX125 but excluded for the SH |
| Pcx125Scraper.SampleIsHonda | src/scrapers/scraper_pcx125.py:220-223 | the sample matches a Honda pattern |
| Pcx125Scraper.SampleIsModel | src/scrapers/scraper_pcx125.py:26-31 | the sample matches a PCX125 pattern |
| Pcx125Scraper.SampleIsExcluded | src/scrapers/scraper_pcx125.py:33-40 | the sample matches the SH exclusion |
| Pcx125Scraper.GetSearchUrls | src/scrapers/scraper_pcx125.py:44-167 | the URLs of the extended layout, first occurrence each; no duplicate, exactly the URLs built |
| Agility125Scraper.ExtractedRecordValid | src/scrapers/scraper_agility125.py:201-248 | a scraped record validates iff its title is Kymco (or names the Agility 125) and Agility 125 and not excluded, with price in 800-3000 and year in 2014-2025 or placeholders |
| Agility125Scraper.BareModelIsKymco | src/scrapers/scraper_agility125.py:262-270 | "agility 125" alone counts as Kymco and as the model |
| Agility125Scraper.SiblingExcluded | src/scrapers/scraper_agility125.py:33-42 | "kymco agility 50" is Kymco but excluded |
| Agility125Scraper.SampleIsKymco | src/scrapers/scraper_agility125.py:252-260 | the sample matches a Kymco pattern |
| Agility125Scraper.SampleIsExcluded | src/scrapers/scraper_agility125.py:33-42 | the sample matches an exclusion pattern |
| Agility125Scraper.GetSearchUrls | src/scrapers/scraper_agility125.py:47-199 | the URLs of the extended layout, first occurrence each; no duplicate, exactly the URLs built |
| Z900Scraper.ExtractedRecordValid | src/scrapers/scraper_z900.py:200-247 | a scraped record validates iff its title is Kawasaki (or names the Z900) and Z900 and not excluded, with price in 4500-9000 and year in 2017-2025 or placeholders |
| Z900Scraper.NinjaExcluded | src/scrapers/scraper_z900.py:35-44 | "ninja z900" counts as Kawasaki and Z900 but is excluded |
| Z900Scraper.SampleIsModel | src/scrapers/scraper_z900.py:262-270 | the sample names the Z900, which implies Kawasaki |
| Z900Scraper.SampleIsExcluded | src/scrapers/scraper_z900.py:35-44 | the sample matches the Ninja exclusion |
| Z900Scraper.GetSearchUrls | src/scrapers/scraper_z900.py:48-198 | the URLs of the extended layout, first occurrence each; no duplicate, exactly the URLs built |
| Mt07Scraper.ExtractedRecordValid | src/scrapers/scraper_mt07.py:191-238 | a scraped record validates iff its title is Yamaha (or names the MT-07) and MT-07 and not excluded, with price in 3000-7500 and year in 2014-2025 or placeholders |
| Mt07Scraper.BareModelIsYamaha | src/scrapers/scraper_mt07.py:253-261 | "mt-07" alone counts as Yamaha and as the model |
| Mt07Scraper.SiblingExcluded | src/scrapers/scraper_mt07.py:37-47 | "yamaha mt-09" is Yamaha but excluded |
| Mt07Scraper.SampleIsYamaha | src/scrapers/scraper_mt07.py:242-250 | the sample matches a Yamaha pattern |
| Mt07Scraper.SampleIsExcluded | src/scrapers/scraper_mt07.py:37-47 | the sample matches an exclusion pattern |
| Mt07Scraper.GetSearchUrls | src/scrapers/scraper_mt07.py:51-189 | the URLs of the extended layout, first occurrence each; no duplicate, exactly the URLs built |
| SearchUrls.Url | src/scrapers/scraper_pcx125.py:132 | every search URL starts with the Wallapop search prefix |
| SearchUrls.QueryUrls | src/scrapers/scraper_pcx125.py:130-138 | one URL per ordering, in order |
| SearchUrls.Expand | src/scrapers/scraper_pcx125.py:130-156 | every URL a query loop builds is a Wallapop search |
| SearchUrls.ExpandStep | src/scrapers/scraper_pcx125.py:130-138 | one more query appends its URLs after the earlier ones |
| SearchUrls.ExpandMembers | src/scrapers/scraper_pcx125.py:130-156 | every URL of a loop is one of its queries under one of its orderings |
| SearchUrls.AppendQueries | src/scrapers/scraper_pcx125.py:130-156 | the loop appends exactly the loop's URLs to the list |
| SearchUrls.AppendStep | src/scrapers/scraper_pcx125.py:130-138 | one pass of the loop appends one query's URLs |
| SearchUrls.UrlsDiffer | src/scrapers/scraper_cb125r.py:79-83 | URLs whose query and ordering differ in total length, or whose equal-length queries differ, are different |
| SearchUrls.GetSearchUrlsExtended | src/scrapers/scraper_pcx125.py:44-167 | the four loops in order, then duplicates dropped, first occurrence kept |
| SearchUrls.ExtendedUrlsSplit | src/scrapers/scraper_pcx125.py:130-156 | the list the four loops build is the extended layout |
| SearchUrls.ExtendedUrlsProperties | src/scrapers/scraper_pcx125.py:158-167 | the final list has no duplicate, holds exactly the URLs built, keeps their order, and is all Wallapop searches |
| SearchUrls.BaseQueriesSearched | src/scrapers/scraper_pcx125.py:130-138 | every base query is searched with the price filter under all three orderings |
| SearchUrls.PrefixExpand | src/scrapers/scraper_pcx125.py:130-138 | the URLs of the first n queries are among the URLs of all of them |
| Seqs.DedupInOrder | src/scrapers/scraper_pcx125.py:158-164 | the seen-set loop gives the list without repeats, first occurrence first, with the same members |
| Sheets.CutsReached | src/google_sheets_manager.py:230-237 | how many of the thresholds 4, 6, 8 the score reaches, at most 3 |
| Sheets.TierOf | src/google_sheets_manager.py:229-237 | the category for the number of thresholds reached: Baja, Regular, Buena, Excelente |
| Sheets.TierMonotone | src/google_sheets_manager.py:229-237 | a higher score never falls into a lower tier |
| Sheets.SimpleCategory | src/google_sheets_manager.py:223-239 | "No calculada" iff the score is missing or is text float() refuses; otherwise the tier of its value |
| Sheets.SimpleModelName | src/google_sheets_manager.py:154-164 | the sheet name of a model is its key upper-cased, whether or not the key is known |
| Sheets.ModelNamesAreUpper | src/google_sheets_manager.py:156-162 | each entry of the name table is its key upper-cased |
| Sheets.SimpleCategories | src/google_sheets_manager.py:190-194 | one category per row: from Rentabilidad_Score when present, else "No calculada" |
| Sheets.Formatted | src/google_sheets_manager.py:166-221 | the sheet frame is well formed |
| Sheets.FormatForSheets | src/google_sheets_manager.py:166-221 | the drop loop, the category column and the reorder loops give the sheet frame |
| Sheets.FormattedLayout | src/google_sheets_manager.py:174-194 | same rows; columns are the input's minus the internal ones, plus Rentabilidad; each row has the internal fields dropped and its category set |
| Sheets.FormattedOrder | src/google_sheets_manager.py:196-221 | the desired columns present come first in the desired order, and every other column after them |
| Sheets.FormattedTitleFirst | src/google_sheets_manager.py:196-208 | when the frame has Título, it is the first column |
| Sheets.CategoryNotComputed | src/google_sheets_manager.py:193-194 | without a score column every row reads "No calculada" |
| Sheets.CleanRow | src/google_sheets_manager.py:128-135 | one text per column: empty for NaN, str(cell) otherwise |
| Sheets.UploadTable | src/google_sheets_manager.py:123-138 | the header row, then one cleaned row per frame row, each as wide as the header |
| Sheets.Kept | src/google_sheets_manager.py:293-303 | a cell contributes its first number exactly when it is read and in range |
| Sheets.Collected | src/google_sheets_manager.py:293-303 | the values the loop keeps are no more than the cells |
| Sheets.CollectedStep | src/google_sheets_manager.py:293-303 | one more cell appends its value iff it is kept |
| Sheets.CollectedMembers | src/google_sheets_manager.py:293-303 | a value is kept iff some cell reads as it |
| Sheets.Accepted | src/google_sheets_manager.py:293-303 | the kept values number no more than the cells |
| Sheets.AcceptedMembers | src/google_sheets_manager.py:293-303 | a value is kept iff some cell reads as it within range, and every kept value is within range |
| Sheets.SumAtLeast | src/google_sheets_manager.py:307 | the sum of values all at least lo is at least lo times their count |
| Sheets.SumAtMost | src/google_sheets_manager.py:307 | the sum of values all at most hi is at most hi times their count |
| Sheets.MeanWithin | src/google_sheets_manager.py:307 | the mean of values within a range is within it |
| Sheets.RealSumAtLeast | src/google_sheets_manager.py:307 | the lower bound, over the reals |
| Sheets.RealSumAtMost | src/google_sheets_manager.py:307 | the upper bound, over the reals |
| Sheets.CastProduct | src/google_sheets_manager.py:307 | casting a product of naturals to real is the product of the casts |
| Sheets.DivideWithin | src/google_sheets_manager.py:307 | a sum within lo·n and hi·n divided by n is within lo and hi |
| Sheets.MeanPositive | src/google_sheets_manager.py:307 | with positive lower bound, the mean is positive iff some value was kept |
| Sheets.DividePositive | src/google_sheets_manager.py:307 | a positive sum over a positive count is positive |
| Sheets.AverageOf | src/google_sheets_manager.py:287-329 | 0.0 without the column; otherwise the mean of the values read in range, 0.0 when there are none |
| Sheets.CalculateAveragePrice | src/google_sheets_manager.py:287-307 | 0.0 or a mean within 500-60000, positive iff some price was in range |
| Sheets.CalculateAverageKm | src/google_sheets_manager.py:309-329 | 0.0 without the column, otherwise the mean of the readings in 0-200000, which lies in that range |
| Runner.ScrapedResults | src/main_runner.py:167-173 | in test mode a non-empty frame is cut to its first 20 rows; otherwise it is unchanged |
| Runner.WithSimpleCategory | src/main_runner.py:207-211 | Rentabilidad is written into every row from the score, columns gain Rentabilidad, row count kept |
| Runner.CalculateRentabilidadFast | src/main_runner.py:201-217 | the cleaned frame when the calculator raises; otherwise a possible calculator result with the category overwritten; one row per listing; "No calculada" everywhere when no score column reaches it |
| Runner.CalculatorKeepsRows | src/rentabilidad_calculator.py:49-117 | every branch of the calculator keeps one row per input row |
| Runner.NoScoreNoCategory | src/main_runner.py:210-211 | without a score column, the overwritten category is "No calculada" in every row |
| Runner.ScoreColumnNeverAdded | src/main_runner.py:207-211 | the calculator never adds a Rentabilidad_Score column, so the runner always takes its else branch |
| Runner.NoDataColumns | src/rentabilidad_calculator.py:71-75 | the no-data result has no score column when its input had none |
| Runner.RankedColumnsMembers | src/rentabilidad_calculator.py:102-110 | the ranked result has no Rentabilidad_Score column when its input had none |
| Runner.SaveColumnsDistinct | src/main_runner.py:279-290 | the local copy's desired columns do not repeat |
| Runner.FormattedForSave | src/main_runner.py:260-301 | the local copy is well formed |
| Runner.FormatForSave | src/main_runner.py:260-301 | the drop loop and the reorder loops give the local copy |
| Runner.SaveLayout | src/main_runner.py:260-301 | the copy keeps exactly the non-internal columns and the rows without them; desired columns come first |
| Runner.AccentedNamesTrail | src/main_runner.py:279-299 | the accented Título and Ubicación columns come after every desired column |
| Runner.AccentedNotSaved | src/main_runner.py:279-290 | the accented names are not among the unaccented desired names |
| Runner.SheetName | src/main_runner.py:308-312 | the sheet name is the key upper-cased, a space, and the date |
| Frames.DropEach | src/google_sheets_manager.py:187-189 | dropping the listed columns one by one, when present, drops them all |
| Frames.DropColumns | src/google_sheets_manager.py:187-189 | the columns and row fields named are gone and nothing else changes |
| Frames.OrderColumns | src/google_sheets_manager.py:210-219 | the two loops list the desired columns present, then the rest |
| Frames.OrderedColumnsPermutation | src/google_sheets_manager.py:210-221 | the reordered columns are a permutation of the frame's, the desired ones first |
| Frames.PresentColumns | src/google_sheets_manager.py:210-213 | the desired columns present are exactly those in both lists |
| Frames.RemainingColumns | src/google_sheets_manager.py:216-219 | the rest are exactly the columns not desired |
| Frames.Reordered | src/google_sheets_manager.py:221 | df[final_columns] keeps the rows and takes the reordered columns |
| Frames.SetColumn | src/google_sheets_manager.py:190-194 | assigning a column sets that field in every row and adds the column name once |
| Frames.Head | src/main_runner.py:172 | head(n): the first n rows, or all of them |

## Left out

- Browser I/O is left out: Selenium, page loading, scrolling, waiting, user-agent rotation, sleeps and the per-URL and per-model time budgets. What a page yields is an input to the model, and a page that fails to load is an input flag.
- The Google Sheets client is left out: credentials, opening and creating worksheets and `clear`. Also left out are `_add_metadata_to_sheet` (besides the two averages), the summary sheet and deleting sheets. These are calls into a remote service.
- Logging, `print`, writing the local `.xlsx` copy with `to_excel` under `resultados/` and its timestamped file name (src/main_runner.py:240-253) are left out.
- The command-line entry points are left out: `run_all_models.py`, `main()`, `run_*_scraper` and the scraper registry in `src/scrapers/__init__.py`. They dispatch and catch exceptions without computing anything.
- Floating point: scores and averages are exact reals. Python's rounding of `float` arithmetic is not modelled.
- `str()` of a float cell is the parameter `repr`. Nothing is assumed about its output.
- Text.PyFloat: `float()` is modelled on texts made of digits and at most one dot. Any other text is a `ValueError`, so exponents, signs, `inf`, `nan` and surrounding spaces are not modelled.
- Text.Lower, Text.Upper: case mapping covers ASCII and Latin-1 (`upper` ASCII only). Full Unicode case mapping is not modelled.
- Text.IsDigit: only the ASCII digits 0-9 are digits. Python's `\d` and `str.isdigit` also accept every other Unicode decimal digit, such as the fullwidth '３'.
- Text.IsWordChar: `\w` is exact up to U+00FF. Above it, every character outside the space, general punctuation, currency and CJK punctuation blocks counts as a word character (the arrow '→', U+2192, does), so a `\b` next to such a character can fall where Python's would not.
- The regular expressions that find candidate numbers in page text (kilometre, year and price patterns in the field extractors) are not matched. Their matches are given to the model as sequences of values, and the selection among candidates is modelled.
- The query lists of the extended search layout (the PCX125, Agility125, Z900 and MT-07 `get_search_urls`) are an input to SearchUrls. The model states the layout and the de-duplication for any lists, without their literal contents.
- BaseScraper.MostFrequent: ties between equally frequent kilometre values depend on Python's set iteration order. The model only states that the chosen value is one of the most frequent.
- Scorer.SortByTotal: pandas' default sort is not stable. The model states only a permutation in non-increasing order, not the order among equal scores.
- Scorer: when every usable listing has the same price (or kilometres, or year), the source's neutral score of 5.0 is built on a fresh index that does not align with the frame's. The model gives every listing 5.0, as intended.
- Cleaner.CleanData: the exception path of `clean_data` (returning the frame unchanged) is not modelled. The filtering cannot raise on the cell values the model admits.
- Cleaner.CleanData: filters sellers (through Cleaner.KeepSeller, Cleaner.CleanerTests and Cleaner.CleanRows) with the corrected test Cleaner.IsCommercial, not the one as written (see Findings). A seller such as "Motos S.A" is dropped by the model and kept by the source; Cleaner.SellerTestsDiffer states exactly which sellers the two tests disagree on.
- Cleaner.CleanedMembers: uses the corrected seller test, as Cleaner.CleanData does; the sellers it drops beyond the source are those Cleaner.SellerTestsDiffer names.
- Cells are NaN, text or number. Other Python objects in a DataFrame cell are not modelled.
- Runner.CalculateRentabilidadFast: whether the calculator raises is a parameter. The model does not say which inputs make it raise.
- The runner's `_score_to_category_fast` and `_get_simple_model_name_fast` repeat the Sheets manager's helpers word for word. The model uses Sheets.SimpleCategory and Sheets.SimpleModelName for both.
- The runner's own run loop, `_clean_data_fast` exception handling and the final summary are orchestration around the modelled stages and are not modelled.
- When no listing has usable data, the calculator's result keeps its internal `_precio_num`, `_km_num` and `_año_num` columns, as in `src/rentabilidad_calculator.py:71-75`. The model keeps them too.
- Scorer.ExtractKm: reads kilometres with the corrected Scorer.KmValue, not the one as written (see Findings). "12000 kilómetros" reads 12000 here and 12 in the source; Scorer.KmReadersDiffer states exactly which texts the two readers disagree on.
- Scorer.ReadRow: its kilometre reading is Scorer.ExtractKm's, so it carries the same difference from the source.
- Scorer.Readings: made of Scorer.ReadRow, so it carries the same difference from the source.
- Scorer.CalculateRentabilidad: scores kilometres read by the corrected reader, so a listing written in "kilómetros" above 10000 scores on its true mileage here and on a thousandth of it in the source.

## Findings

| source | as written | input that shows it | evidently intended | confidence | as-written member | corrected member |
|---|---|---|---|---|---|---|
| src/limpiador_integrado.py:232-241 | the seller test lower-cases the text, then searches it for the upper-case patterns for S.L., S.A. and Ltd, which can never match | the seller "Motos S.A" is kept as a private seller | those patterns match the lower-cased text, so "Motos S.A" is commercial and dropped | high (not executed) | Cleaner.IsCommercialAsWritten, Cleaner.SuffixCaseCounterexample | Cleaner.IsCommercial |
| src/rentabilidad_calculator.py:196-197 | the kilometre reader divides by 1000 when the text contains "metro", and "kilómetros" contains "metro" | "12000 kilómetros" reads as 12 | divide only for metre readings | high (not executed) | Scorer.KmValueAsWritten, Scorer.KilometresCounterexample | Scorer.KmValue |
