# CMR query engine and search-parameter validators, in Dafny

This project models two parts of the search API.

- **The CMR query engine** (`CMR/Query.py`).
  - The *decomposer* turns a filter map into an ordered list of subquery parameter lists:
    - the filters named `granule_list`, `product_list` and `platform` are set apart as list parameters;
    - every filter value is rendered through the input map into `{field: formatted value}` pairs;
    - the other filters are combined as a cartesian product, in `itertools.product` order;
    - the flattened tuple of list-parameter pairs is appended to every combination.
  - The *session* (`CMRQuery`) fixes the extra parameters, including `page_size`, and a cutoff instant 870 seconds after creation. It builds one subquery per parameter list.
    - `get_count` sums the subqueries' counts.
    - `get_results` drains the subqueries in order. It draws each candidate record from its subquery, then checks the cutoff and then `max_results`, and stops if either fails. A candidate that passes both checks is *consumed*: a `None` entry is skipped, and any other record is counted and yielded. The candidate at which the run stops has been drawn but is neither consumed nor yielded.
- **The input validators** (`SearchAPI/CMR/Input.py`): parsers that accept or reject a query-string value. They cover:
  - non-empty strings and integers;
  - numeric ranges `low-high`, integer ranges and number-or-range lists;
  - comma lists and string lists;
  - coordinate, bbox and point strings;
  - date ranges.

## How the code is represented

- **Dictionaries.** The filter map is the sequence of its entries in dictionary iteration order (`Decompose.Filter`). A one-entry dictionary `{field: value}` is a `Decompose.Pair`.
  - A Python dict has distinct keys. The sequence does not enforce distinct names. Every property stated here holds for any sequence, and so in particular for the sequences with distinct names that a dict gives.
- **Formatting.** `input_map()` is an injected `map<string, Mapping>`. The `str.format` template of a mapping is given as its literal chunks around `{0}` placeholders, and the value is inserted between them.
- **The catalog.** `CMRSubQuery` is a value built from an injected `Catalog` function. The catalog gives a subquery's total count and the sequence of optional records that its scrolled pages deliver.
- **The clock.** `time.time()` is read once at construction (`now`). During `get_results` it is a function `clock` from the number of a candidate to the instant at which that candidate, once drawn, is checked.
- **The generator.** `get_results` is a method that returns everything the generator yields before it stops, together with the reason it stopped. The specification function `Query.Drain` describes the same run over the concatenated candidates of all subqueries.
- **Failures.**
  - A `KeyError` from an unmapped filter is `Failure(Unmapped(name))`. `Query.NewQuery` returns it instead of constructing a session.
  - A `ValueError` in a validator is `Failure(reason)`, where the reason is the innermost check that failed.
- **Python built-ins.** `int()`, `float()` and `dateparser.parse` are function parameters returning `Option`. `str.split`, `str.join`, `str.replace` (module `Text`) and both regular expressions are written out.
  - The regular expression is the grammar of `Input.IsNumeral`. Python's `$` also matches just before a final newline, and the model includes that case.
  - `strftime('%Y-%m-%dT%H:%M:%SZ')` is written out as `Input.Stamp`.
- **Platform.** `CMR/Query.py:94` lists `platform` among the list parameters, beside `granule_list` and `product_list`. So a platform filter never multiplies subqueries.

## Model

| member | source | states |
|---|---|---|
| Query.RequestedPageSize | CMR/Query.py:12-17 | the `page_size` sent is at most 2000 and at most `max_results`, and it is either 2000 or `max_results` itself |
| Query.IsSmallMaxResults | CMR/Query.py:41-45 | `max_results` is set and below the given page size (a predicate; its meaning is carried by `SmallMaxResultsShrinksPage` and `RequestedPageSize`) |
| Query.ExtraParams | CMR/Query.py:15-23 | the seven extra parameters in order: `provider`, `page_size`, `scroll`, the temporal option, the two sort keys and the platform case option; the ensures pin the count, the second entry as `page_size` with the requested size in decimal and no other entry a `page_size`, and the two `sort_key[]` entries in their significant order, `-end_date` then `granule_ur` |
| Query.NewSubQuery | CMR/Query.py:31-36 | a subquery keeps its parameter list and the shared extra parameters, and carries the catalog's count and records for exactly those |
| Query.SmallMaxResultsShrinksPage | CMR/Query.py:41-45 | the page is smaller than 2000 exactly when `max_results` is set and below 2000 |
| Query.CMRQuery.constructor | CMR/Query.py:10-37 | a new session has the extra parameters for its page size, a zero counter, a cutoff 870 seconds after `now`, and one subquery per decomposed parameter list (in order, each with the shared extra parameters) |
| Query.NewQuery | CMR/Query.py:10-37 | construction fails exactly when some filter is unmapped, with the decomposer's error; otherwise it gives a fresh, valid session with the given filters and `max_results`, the page size for that cap, a zero counter, a cutoff of `now` + 870, and one subquery per decomposed parameter list in order |
| Query.CMRQuery.IsOutOfTime | CMR/Query.py:74-75 | the session is out of time exactly when the instant given is past its cutoff (a predicate) |
| Query.CMRQuery.MaxResultsReached | CMR/Query.py:77-81 | in a valid session with a non-negative `max_results`, once the cap is reached the counter sits exactly at `max_results` |
| Query.CMRQuery.GetCount | CMR/Query.py:47-48 | the count is the sum of the subqueries' counts; it reads neither the counter, the cap nor the clock |
| Query.CountMatchesUnboundedYield | CMR/Query.py:47-70 | when every subquery's count is its number of non-`None` records, the total count is the number of records across all candidates |
| Query.CMRQuery.GetResults | CMR/Query.py:50-72 | the records yielded, the reason for stopping and the final counter are those of `Drain` over all candidates from the old counter; the counter grows by the number yielded; the yield is a prefix of all records; the session stays valid, so the counter never passes a non-negative `max_results` |
| Query.CMRQuery.DrainResults | CMR/Query.py:56-70 | the inner loop over one subquery's records either leaves the drain to resume after them, or has stopped with exactly the whole session's yield, reason and counter |
| Query.DrainSpec | CMR/Query.py:51-70 | a drain yields the records of the candidates it consumed, counting each one; every consumed candidate was checked at or before the cutoff; it ends before the last candidate only at a candidate drawn and checked after the cutoff, or at one drawn with the counter at or past `max_results`, and that candidate is not consumed; every consumed candidate was checked with the counter (the start plus the records before it) below `max_results`, so the run stops at the first candidate drawn at the cap |
| Query.Drain | CMR/Query.py:51-70 | the spec of the `get_results` loops: the number of candidates consumed lies between the starting index and the number of candidates |
| Query.DrainRespectsCap | CMR/Query.py:62-69 | the counter only grows, and never passes `max_results` when it starts at or below it |
| Query.YieldsPrefix | CMR/Query.py:51-70 | what is yielded is a prefix of the non-`None` records of the candidates, in subquery order |
| Query.DrainFromStart | CMR/Query.py:51-70 | over a whole session the final counter is the initial one plus the number yielded, and the yield is a prefix of all records |
| Query.NothingAfterCutoff | CMR/Query.py:57-60 | once the clock passes the cutoff at some candidate, that candidate (which may already be drawn) and the later ones are neither consumed nor yielded, and the run does not end as exhausted |
| Query.YieldsAllWhenUnbounded | CMR/Query.py:51-72 | with no `max_results` and no timeout, every non-`None` record is yielded and the run ends exhausted |
| Query.YieldsExactlyTheCap | CMR/Query.py:62-70 | with `max_results` set, no timeout and enough records, exactly the first `max_results` minus the counter records are yielded, and the counter ends at `max_results` |
| Decompose.TranslateElements | CMR/Query.py:147-155 | one pair per element, in element order, each with the mapped field and the formatted element |
| Decompose.TranslateParam | CMR/Query.py:135-157 | fails exactly for an unmapped name; a scalar gives a single pair; a list of n elements gives n pairs in order; a nested element is formatted as the comma-join of its items |
| Decompose.FormatQueryParams | CMR/Query.py:125-132 | one pair list per filter, in order, each that filter's translation; it fails exactly when some filter is unmapped, reporting the first one in iteration order |
| Decompose.SelectMembers | CMR/Query.py:94-99 | the selection keeps exactly the filters whose list-name membership is the one asked for |
| Decompose.SelectAppend | CMR/Query.py:95-99 | selecting from a concatenation selects from each part in turn, so the selected filters keep the filter map's iteration order |
| Decompose.SelectOne | CMR/Query.py:96-99 | a single filter is kept exactly when its list-name membership is the one asked for |
| Decompose.Partition | CMR/Query.py:92-99 | the subquery filters and the list filters together are the filter map as a multiset; list names go only to the list filters, all others only to the subquery filters |
| Decompose.MappedParts | CMR/Query.py:92-102 | every filter is mapped exactly when the filters of both parts are |
| Decompose.Prefixing | CMR/Query.py:116 | one combination per pair of a first element and a rest, each starting with an element of the first list |
| Decompose.Product | CMR/Query.py:116 | the product has as many combinations as the product of the list lengths, and each takes one element from each list, in order |
| Decompose.ProductAt | CMR/Query.py:116 | the combination at the mixed-radix rank of a choice of indices is exactly the chosen elements |
| Decompose.RankLexOrder | CMR/Query.py:116 | lexicographically smaller choices come earlier in the product, so the first filter varies slowest |
| Decompose.Flatten | CMR/Query.py:120 | the summed lists have the total length, and they hold exactly the elements of the lists |
| Decompose.FlattenAppend | CMR/Query.py:120 | `sum` over a concatenation is the sum of each part, one after the other |
| Decompose.FlattenOne | CMR/Query.py:120 | the sum of a single list is that list |
| Decompose.CartesianProduct | CMR/Query.py:113-116 | fails exactly on an unmapped filter (the first one); otherwise it gives as many combinations as the product of the filters' cardinalities, each one pair per filter from that filter's translation |
| Decompose.FormatListParams | CMR/Query.py:119-122 | fails exactly on an unmapped filter (the first one); otherwise it gives one flat tuple holding exactly the pairs of every list filter, the total cardinality long |
| Decompose.FormatListParamsAppend | CMR/Query.py:119-122 | the tuple for some list filters followed by one more is the earlier tuple followed by that filter's pairs, so the pairs appear filter by filter in iteration order |
| Decompose.AppendTail | CMR/Query.py:104-106 | every query is followed by the same tail |
| Decompose.SubqueryListFrom | CMR/Query.py:84-110 | fails exactly when some filter is unmapped; the number of subqueries is the product of the subquery filters' cardinalities; subquery i is combination i of the product followed by the flattened list tuple |
| Decompose.SingleSubqueryWithoutCombinations | CMR/Query.py:101-106 | with no subquery filters there is exactly one subquery, the list tuple |
| Decompose.SubqueryAtChoice | CMR/Query.py:101-106 | the subquery at the rank of a choice of one value per subquery filter holds those values' pairs in filter order, then the list tuple |
| Text.Split | SearchAPI/CMR/Input.py:134 | `split(',')` gives at least one piece, and no piece holds the separator |
| Text.JoinSplit | SearchAPI/CMR/Input.py:134-142 | joining the pieces of a split gives back the string |
| Text.SplitJoin | SearchAPI/CMR/Input.py:36-40 | splitting a join of separator-free parts gives back the parts |
| Text.Remove | SearchAPI/CMR/Input.py:45 | `replace(' ', '')` leaves no space and adds no character |
| Text.RemoveAppend | SearchAPI/CMR/Input.py:45 | removing from a concatenation removes from each part, so the kept characters stay in order |
| Text.RemoveOne | SearchAPI/CMR/Input.py:45 | a single character is dropped when it is a space and kept otherwise |
| Text.RemoveIdempotent | SearchAPI/CMR/Input.py:45 | removing spaces twice is removing them once |
| Input.ParseString | SearchAPI/CMR/Input.py:6-12 | accepts exactly the non-empty strings and returns them unchanged; the empty string is rejected |
| Input.ParseInt | SearchAPI/CMR/Input.py:15-19 | succeeds exactly when `int()` reads the value, with that integer; otherwise an invalid-int error for the value |
| Input.RangeMatchSpec | SearchAPI/CMR/Input.py:46 | the range expression matches exactly the strings `low-high`, with an optional final newline, for two numerals `-?\d+(\.\d*)?`, and its groups are those numerals |
| Input.NumberMatch | SearchAPI/CMR/Input.py:103 | the lone-number expression `^(-?\d+(\.\d*)?)$` finds a match: the string is a numeral, or a numeral followed by one final newline (a predicate) |
| Input.NumberIsNotRange | SearchAPI/CMR/Input.py:101-106 | a string the lone-number expression matches never matches the range expression |
| Input.ParseRange | SearchAPI/CMR/Input.py:43-56 | spaces are dropped; a non-range shape is rejected; a failing end passes its error on; reversed ends fail, equal ends give the single value, other ends the pair with low below high |
| Input.RangeOfNumerals | SearchAPI/CMR/Input.py:43-56 | a range written as two numerals is read end by end, with the reversed/equal/ordered outcome of its values |
| Input.RangeIgnoresSpaces | SearchAPI/CMR/Input.py:45 | removing spaces first does not change the result |
| Input.ParseIntRange | SearchAPI/CMR/Input.py:59-63 | accepts exactly a spaceless range shape whose two ends `int()` reads with low at most high; equal ends give the single value, different ends the increasing pair; a bad shape, the first unreadable end and reversed ends each give their own error |
| Input.MapAll | SearchAPI/CMR/Input.py:75 | succeeds exactly when every piece succeeds, with the values in order; otherwise the error is that of the first failing piece |
| Input.ParseList | SearchAPI/CMR/Input.py:73-77 | one value per comma piece, in order; it fails exactly when a piece fails, with the first failing piece's error |
| Input.ListOfJoin | SearchAPI/CMR/Input.py:73-77 | a list written by joining comma-free parts is read part by part |
| Input.ParseStringList | SearchAPI/CMR/Input.py:80-84 | accepts exactly when no comma piece is empty, returning the pieces; otherwise the error is the empty string |
| Input.StringListRoundTrip | SearchAPI/CMR/Input.py:80-84 | an accepted string list joins back to its input |
| Input.StringListOfJoin | SearchAPI/CMR/Input.py:80-84 | non-empty comma-free strings joined by commas are read back as they are |
| Input.ParseNumberOrRange | SearchAPI/CMR/Input.py:101-108 | for a lone number, the result and the error are those of `h(v)`; otherwise it is `parse_range` |
| Input.ParseNumberOrRangeList | SearchAPI/CMR/Input.py:111-116 | succeeds exactly when every comma piece of the spaceless value is a number or range, with one result per piece in order |
| Input.NumberOrRangeListIgnoresSpaces | SearchAPI/CMR/Input.py:113 | removing spaces first does not change the result |
| Input.FirstNonNumber | SearchAPI/CMR/Input.py:135-139 | finds exactly the first piece `float()` does not read, or none when all are read |
| Input.ParseCoordString | SearchAPI/CMR/Input.py:133-142 | accepts exactly when every piece is a number and there is an even count; an accepted string comes back unchanged; the first non-number piece, or else an odd count, gives its own error |
| Input.ParseBboxString | SearchAPI/CMR/Input.py:145-152 | accepts exactly four numeric pieces and returns the input unchanged; any other even count is a bbox arity error |
| Input.ParsePointString | SearchAPI/CMR/Input.py:155-162 | accepts exactly two numeric pieces and returns the input unchanged; any other even count is a point arity error |
| Input.Stamp | SearchAPI/CMR/Input.py:33 | the written instant holds no comma |
| Input.ParseDate | SearchAPI/CMR/Input.py:29-33 | succeeds exactly when the date parser reads the value, giving that instant in the fixed format; otherwise an invalid-date error |
| Input.ParseDateRange | SearchAPI/CMR/Input.py:36-40 | accepts exactly two comma pieces that both read as dates; any other piece count is an arity error; the result splits into the two rewritten dates |
| Input.DateRangeOfTwo | SearchAPI/CMR/Input.py:36-40 | two comma-free values joined by a comma form a date range exactly when both read as dates |

## Left out

- `SearchAPI/Baseline/Calc.py`, `APIProxy.py`, `asf_env.py`, `CMR/Health.py`, `api_headers.py` and the test files are not part of this model. They hold floating-point geometry, HTTP handling, configuration and tests.
- `parse_wkt` is not modelled. It only delegates to an external WKT library.
- `parse_float`, `parse_float_range`, `parse_int_list`, `parse_float_list`, `parse_int_or_range_list` and `parse_float_or_range_list` have no members of their own.
  - `parse_float` is `float()` itself, with its `ValueError` as the failure. In the model that is the `FloatParser` parameter.
  - The other five are the generic parsers (`Input.ParseRange`, `Input.ParseList`, `Input.ParseNumberOrRangeList`) applied to `parse_float` or to `parse_int`. Those generic parsers take the element parser as a parameter.
- The paging inside `CMRSubQuery`, the contents of `input_map()`, and the actual behaviour of `int()`, `float()` and `dateparser.parse` are foreign code. They are parameters: `Catalog`, `InputMap`, `IntParser`, `FloatParser` and `DateParser`.
- A failing catalog request is not modelled, because `Catalog` is a total function. In the source, a catalog client error (a `RetrievalError`) can be raised out of `sq.get_count()` (`CMR/Query.py:48`) or a subquery's `get_results()` (`CMR/Query.py:56`). It ends the count, or the session partway through its results.
- Logging is not modelled. It has no effect on results.
- Error messages and the wrapping of one `ValueError` in another are not modelled. A failure carries the innermost reason only.
- Laziness is not modelled.
  - `get_results` is a generator, so a consumer can stop early.
  - The model returns what the generator yields when it is drained to the end.
  - `Query.YieldsPrefix` shows that any earlier stop would see a prefix of the same sequence.
- Query.CMRQuery.IsOutOfTime: reads the instant it is given rather than `time.time()`. The instants `get_results` sees are the `clock` parameter.
- Parsed numbers are `real` and not IEEE doubles. `float()` rounding, `inf` and `nan` are outside the model.
- Python's `\d` matches non-ASCII digits, and `int()`/`float()` accept them and surrounding whitespace; the model's numeral grammar is ASCII only.
- Decompose.Format: templates are chunks around `{0}` placeholders, each of which receives the value.
  - A template with two or more automatically numbered `{}` fields raises `IndexError` in Python. The model does not include that failure.
  - Format specs such as `{0:.2f}` and values other than text are not modelled.
- Input.Stamp: writes the year in as many digits as it has, without padding, as glibc does. Padding of years below 1000 is platform-dependent and is not modelled. The `Z` suffix is written literally, and no time-zone conversion is modelled.
- Input.ParseDate: calls the date parser once. `parse_date` calls `dateparser.parse` twice, at `SearchAPI/CMR/Input.py:30` and `:33`, and formats the second result. For relative dates such as "now" the two results can differ. In the model the parser is a function, so both calls give the same result.
- Input.ParseRange: returns `Single(x)` or `Span(lo, hi)`, where Python returns a bare number or the list `[lo, hi]`.
- Input.ParseNumberOrRangeList: its failure is stated only through the "if and only if" on success. Which piece's error is reported follows from `Input.MapAll`, but it is not restated on the list parser.
- Input.ParseBboxString: the errors passed through from `parse_coord_string` are not restated. Only the bbox arity error is stated.
- Input.ParsePointString: the errors passed through from `parse_coord_string` are not restated. Only the point arity error is stated.
- Input.ParseDateRange: a failure is the arity error or an invalid date. Which of the two dates failed is not restated.
