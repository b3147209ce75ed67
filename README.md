# Tweet sentiment pipeline: a verified model

`app.py` is a Streamlit page. A user presses its "run" button. The page then:

- checks that the Apify token and the Gemini key are configured;
- splits the search-term text area into terms;
- scrapes posts through the Apify actor and flattens each scraped item into a row;
- drops repeated urls;
- asks Gemini for one sentiment label per post, using a thread pool;
- asks Gemini for the main themes, over all posts and per sentiment;
- computes the ten most viewed posts, the ten most followed users, the sentiment distribution and a timeline of posts per time bucket;
- offers the labelled rows as a CSV.

This project models that pipeline in Dafny and proves what each step promises. The scraper, the two Gemini calls and the timestamp parser are abstract functions passed in as parameters.

| file | module | what it models |
|---|---|---|
| `wrappers.dfy` | `Wrappers` | `Option`, `Min` |
| `strings.dfy` | `Strings` | Python's `str.isspace`, `strip`, `upper`, `"\n".join` and `str(int)`, plus the integer strings `pandas.to_numeric` reads |
| `seqs.dfy` | `Seqs` | The pandas operations the page uses, written as sequence functions:<br>• boolean-mask filtering<br>• `drop_duplicates(keep="first")`<br>• `value_counts` / `groupby().size()` as a tally<br>• `sort_values(ascending=False).head(n)` |
| `terms.dfy` | `Terms` | search-term parsing (line 312) |
| `rows.dfy` | `Rows` | normalisation of scraped items (lines 153-189) and url de-duplication (line 325) |
| `labels.dfy` | `Labels` | `clasificar_tweet` (lines 192-204) and the index-keyed results list (lines 342-362) |
| `themes.dfy` | `Themes` | `extraer_temas_con_ia` and `extraer_temas_generales_con_ia` (lines 206-261) |
| `aggregate.dfy` | `Aggregate` | rankings, distribution, per-sentiment subsets and timeline (lines 384-523) |
| `pipeline.dfy` | `Pipeline` | one press of the button (lines 301-551) |

How the model represents things:

- **Scraped items and rows.** A scraped item is a map from key to `Value`:
  - null,
  - an integer,
  - a string,
  - or a nested object.

  A row is the `Post` record holding the thirteen kept columns. `viewCount` and `author/followers` are integers, because `fillna(0)` leaves no gaps. The frame's column list is kept next to its rows. That is how the model represents a frame without `url` or `text` raising a `KeyError` at line 325 or line 343.
- **Label assembly is imperative, as in the source.**
  - `Labels.AssembleLabels` allocates an array of `"NEUTRO"` with one entry per row.
  - Each loop step picks any unfinished call: `var idx :| idx in pending` models `as_completed`.
  - The step writes that call's label at the call's own index and increments the counter.
  - The postcondition states that the result is `ExpectedLabels` whatever the completion order.
- **Everything else is pure, as in the source.** The pandas expressions become functions.
- **Each backend is a function.**
  - Classification: `reply(i)` is the answer to the call made for row `i`, or `None` when the call raised.
  - Themes: `backend(prompt)` is the answer to a prompt, or `None` when the call raised.
  - Scraper: `fetch(terms)` gives the scraped items, or `None` when the call raised.
  - Timestamps: `parseTime(cell)` is the parsed `createdAt`: a day number, a month number and an hour. It is `None` where `pd.to_datetime(errors='coerce')` gives `NaT`.

Facts about `app.py` that the model keeps:

- **Classification is one call per post.** The code submits one backend call per post with non-blank text (line 349). There is no batching, and no padding or truncation of a reply.
- **Labels are not restricted.** The label falls back to `"NEUTRO"` when the call raised or the text is null or blank (lines 202-204 and 343). Otherwise it is the backend's reply, stripped and upper-cased (line 201), whatever it says.
- **Negative numbers pass through.** `pd.to_numeric` (lines 173-174) keeps negative `viewCount` and `followers` values.
- **The avatar is the first non-null one.** `groupby(...).agg(first)` (lines 427-430) skips nulls, so each user's picture is the first non-null profile picture among their posts.
- **The timeline is always drawn.** A frame with rows always has a `createdAt` column: without one, line 183 raises inside the `try` and the frame comes back empty. So the branch of line 499 that skips the timeline is never taken (`Pipeline.CollectedStamped`).
- **A missing column is fatal.** A non-empty frame without a `url` or `text` column raises an uncaught `KeyError` (lines 325 and 343). The model reports this as `Outcome.MissingColumn`.

## Model

| member | source | states |
|---|---|---|
| `Strings.IsSpace` | app.py:201 | Python's whitespace set for `str.strip` and `str.isspace`: it includes space, tab, newline and carriage return, and excludes letters, digits, signs and the comma |
| `Strings.Strip` | app.py:201 | `str.strip`: the result neither starts nor ends with whitespace, is no longer than the input, and is empty exactly when the input is blank |
| `Strings.StripInfix` | app.py:312 | the stripped text is the infix of the input between an all-whitespace prefix and an all-whitespace suffix |
| `Strings.StripStripped` | app.py:201 | stripping an already stripped text changes nothing |
| `Strings.UpperChar` | app.py:201 | `.upper()` on one character: ASCII lower-case letters map to their capitals, other characters below U+00E0 are unchanged, and whitespace stays whitespace and nothing else becomes whitespace |
| `Strings.Upper` | app.py:201 | `.upper()` within the model's character range: upper-cases character by character, keeps the length (`ß` is left as is, see Left out), and keeps a text blank or non-blank |
| `Strings.UpperKeepsStripped` | app.py:201 | upper-casing keeps a text stripped, in both directions, and upper-casing twice is upper-casing once |
| `Strings.JoinLines` | app.py:221 | `"\n".join` (also line 251): a single text joins to itself, the join starts with the first text, and is as long as all texts plus one newline between neighbours |
| `Strings.JoinLinesAppend` | app.py:221 | joining two non-empty lists is joining each and putting one newline between, so the texts appear in order, separated by single newlines |
| `Strings.JoinLinesBlank` | app.py:221-223 | the newline-joined text is blank exactly when every joined text is blank |
| `Strings.NatText` | app.py:371 | `str(n)` for a natural number is a non-empty run of decimal digits, one digit exactly below 10, with no leading zero |
| `Strings.IntText` | app.py:371 | `str(n)` is non-empty and starts with '-' exactly when `n` is negative |
| `Strings.NatTextValue` | app.py:371 | the digits of `str(n)` read back as `n` |
| `Strings.ParseIntText` | app.py:173-174 | `to_numeric` reads the decimal text of every integer back as that integer |
| `Strings.ParseInt` | app.py:173-174 | `to_numeric` on an integer string: an optional sign then only digits is a number with that value, a negative number has a '-', and a string without digits is not a number (other numeric formats: see Left out) |
| `Terms.SplitPieces` | app.py:312 | `re.split(r'[,\n]')` gives at least one piece and no piece contains a separator |
| `Terms.SplitPiecesAt` | app.py:312 | splitting around one separator splits the pieces there: the pieces of `a + c + b` are those of `a` followed by those of `b` |
| `Terms.SplitPiecesWhole` | app.py:312 | text without separators is a single piece |
| `Terms.StripNoSeparator` | app.py:312 | stripping a piece never introduces a separator |
| `Terms.KeptPiece` | app.py:312 | a piece contributes nothing exactly when it is blank, and otherwise its stripped text |
| `Terms.KeepTerms` | app.py:312 | the comprehension keeps only non-empty terms and never more terms than pieces |
| `Terms.KeepTermsSource` | app.py:312 | every kept term is the strip of some piece |
| `Terms.KeepTermsStripped` | app.py:312 | every kept term has no surrounding whitespace |
| `Terms.KeepTermsNoSeparator` | app.py:312 | no kept term contains ',' or '\n' |
| `Terms.KeepTermsAppend` | app.py:312 | the comprehension distributes over concatenation, so pieces keep their order |
| `Terms.ParseTerms` | app.py:312 | every search term is non-empty, stripped, and free of ',' and '\n' |
| `Terms.ParseTermsAt` | app.py:312 | terms keep input order: the terms of `a + sep + b` are the terms of `a` followed by those of `b` |
| `Terms.ParseTermsWhole` | app.py:312 | input without separators gives its stripped self as the only term, or no term when it is blank |
| `Terms.OnlySpacesAndCommasAt` | app.py:312-313 | an input of whitespace and commas splits at a separator into two such inputs, and conversely |
| `Terms.ParseTermsNone` | app.py:312-315 | there are no terms (and the run stops) exactly when the input holds only whitespace and commas |
| `Rows.AuthorField` | app.py:168-170 | `x.get(key) if isinstance(x, dict) else None`: an object author gives its field, or null when it lacks it, and anything else gives null |
| `Rows.ToNumeric` | app.py:173-174 | `to_numeric(errors='coerce')` on one cell: an integer stays, a string is parsed as an integer string, and null or an object is NaN (other numeric formats: see Left out) |
| `Rows.Render` | app.py:490 | `astype(str)` on one cell (also line 371): a string prints as itself, a missing or NaN cell as "nan", an integer as text that reads back as it, and only a string can print blank (a kept `None` and a dict's repr: see Left out) |
| `Rows.CoerceNumber` | app.py:173-174 | `to_numeric(errors='coerce').fillna(0)`: integers stay, integer strings are read, null, objects and other strings become 0 (other numeric formats: see Left out) |
| `Rows.CoerceNumberText` | app.py:173-174 | the text of an integer is coerced back to that integer |
| `Rows.AllColumnsComplete` | app.py:177-178 | the fixed column list names every known column |
| `Rows.ColumnNames` | app.py:167 | every key of every scraped item is a column of the frame |
| `Rows.ColumnNamesOccur` | app.py:167 | conversely, every column of the frame is a key of some scraped item |
| `Rows.KeptColumns` | app.py:177-181 | the kept columns are a subsequence of the fixed list, so they keep its order |
| `Rows.KeptColumnsMember` | app.py:168-181 | a known column is kept exactly when lines 168-170 added it or some item has that key |
| `Rows.NormalizeItem` | app.py:168-183 | the author object is flattened: an object author gives its own `userName`, `profilePicture` and coerced `followers`, anything else gives null name and picture and 0 followers; `viewCount` is coerced; `createdAt` is the parsed cell; text, url, the counters and `source` are copied |
| `Rows.Normalize` | app.py:153-189 | the frame is empty exactly when the scraper raised, returned nothing, or no item has `author`, `viewCount` or `createdAt`; otherwise it has one normalised row per item, in order, and the kept columns |
| `Rows.UniqueByUrl` | app.py:325 | de-duplication gives a subsequence of the rows, at most one row per url, every url still present, and no rows only when there were none |
| `Rows.UniqueByUrlKeepsFirst` | app.py:325 | the row kept for each url is its first row, in input order (equal to an independent reference definition) |
| `Seqs.Filter` | app.py:501 | a boolean mask keeps, in order, exactly the rows that satisfy it, each as many times as it occurs |
| `Seqs.DedupFrom` | app.py:325 | the scan skips every element whose key was already seen and keeps one element per remaining key |
| `Seqs.Dedup` | app.py:325 | `drop_duplicates`: a subsequence with distinct keys and the same key set as the input |
| `Seqs.DedupFromFirsts` | app.py:325 | the scan from any point equals the reference list of first occurrences from that point |
| `Seqs.DedupKeepsFirsts` | app.py:325 | `drop_duplicates(keep="first")` keeps exactly the first element of each key, in input order |
| `Seqs.Distinct` | app.py:427 | the group keys are distinct and are exactly the values that occur |
| `Seqs.Tally` | app.py:449 | one entry per distinct value, holding its number of occurrences (at least 1); the counts add up to the input length |
| `Seqs.SumCountsPermutation` | app.py:449 | reordering a count table does not change its total |
| `Seqs.SortDesc` | app.py:386 | `sort_values(ascending=False)` gives a permutation sorted in descending order |
| `Seqs.InsertDesc` | app.py:386 | inserting into a descending list keeps it sorted and adds exactly one element |
| `Seqs.Top` | app.py:386-390 | `head(n)` of the sorted list has `min(n, len)` elements, is sorted, is drawn from the input, and nothing left out has a larger key than anything kept |
| `Seqs.DistinctKeysSubmultiset` | app.py:432 | reordering a table with distinct keys, or keeping only some of its entries, keeps the keys distinct |
| `Seqs.SortedTally` | app.py:449 | a sorted tally keeps one entry per distinct value with its exact count, and the counts add up to the input length |
| `Labels.HasText` | app.py:343 | `pd.notna(t) and str(t).strip()`: the cell is not null and its printed form is not blank |
| `Labels.ValidIndices` | app.py:343 | `tweets_validos`: exactly the indices of the rows whose text passes `HasText` |
| `Labels.Classify` | app.py:192-204 | the label is "NEUTRO" without a model or when the call raised, and otherwise the reply stripped and upper-cased; it is always stripped and upper-case |
| `Labels.ValidIndicesBound` | app.py:343-357 | no more calls are made than there are rows |
| `Labels.ExpectedLabels` | app.py:342-355 | one label per row: rows without text are "NEUTRO", every other row holds the classification of its own call |
| `Labels.PartialLabelsStep` | app.py:351-355 | a finished call writes exactly its own row's slot |
| `Labels.AssembleLabels` | app.py:342-360 | whatever order the calls finish in, the results list is `ExpectedLabels` and every submitted call is counted exactly once |
| `Labels.Attach` | app.py:362 | the label column is attached row by row, posts unchanged |
| `Themes.Sample` | app.py:221 | the sample is the first `min(len, 500)` texts, in order |
| `Themes.Extract` | app.py:206-261 | without a model, the fixed message and no call. Otherwise the backend is called exactly when some sampled text is non-blank, with the header followed by the sampled texts one per line. The answer is shown stripped, the fixed failure text on an exception, and the "not enough tweets" text when no call is made |
| `Themes.ExtractIgnoresTail` | app.py:221 | texts after the first 500 never change the outcome |
| `Aggregate.TopViews` | app.py:386-390 | the `min(10, n)` most viewed rows, most viewed first, drawn from the rows, and no row left out has more views than a row kept |
| `Aggregate.MaxFollowers` | app.py:428 | the `max` aggregate is the follower count of one of the user's posts and no smaller than any of them |
| `Aggregate.FirstPicture` | app.py:429 | the `first` aggregate is null exactly when all of the user's pictures are null, and otherwise the picture of the user's first post with a non-null one |
| `Aggregate.UserNames` | app.py:423-427 | the group keys are distinct non-null user names, each of some post, and every non-null user name of a post is among them |
| `Aggregate.NonNullNames` | app.py:423 | after `dropna`, the names are exactly the non-null user names of the posts |
| `Aggregate.UserLines` | app.py:427-430 | one aggregated line per given name, in the order of the given names |
| `Aggregate.UserTable` | app.py:423-430 | every line holds a non-null user name with posts, its maximum follower count and its first non-null picture |
| `Aggregate.UserTableKeys` | app.py:423-430 | the users table has one line per user: names are distinct and every non-null user name of a post has a line |
| `Aggregate.TopUsers` | app.py:432 | the `min(10, users)` most followed users, most followed first, drawn from the users table, with distinct names, each line the aggregate of that user's posts, and no user left out has more followers than a user kept |
| `Aggregate.SubTableLines` | app.py:427-432 | any selection of lines from the users table keeps distinct user names and lines that aggregate each user's posts |
| `Aggregate.SentimentCounts` | app.py:449 | `value_counts`: each distinct label once with its number of rows (at least 1), most frequent first, and the counts add up to the number of rows |
| `Aggregate.Percentages` | app.py:453 | one percentage per sentiment (its properties are the two lemmas below) |
| `Aggregate.ScaledSum` | app.py:453 | scaling every count by the same factor scales their sum by it |
| `Aggregate.PercentagesSum` | app.py:453 | with exact arithmetic the percentages add up to 100 |
| `Aggregate.PercentagesBounds` | app.py:453 | every percentage lies between 0 and 100 |
| `Aggregate.LabelTexts` | app.py:490 | the subset for a sentiment has as many texts as rows carrying that label, and each is the text of such a row |
| `Aggregate.LabelTextsAppend` | app.py:490 | the subset keeps row order: the texts for `a + b` are the texts for `a` followed by those for `b` |
| `Aggregate.LabelTextsOne` | app.py:490 | a single row contributes its rendered text exactly when it carries the sentiment |
| `Aggregate.TextsLabelledTail` | app.py:490 | the texts of the later rows, and the first row's own text when it has the label, are texts of rows with that label |
| `Aggregate.LabelTextsMatchCounts` | app.py:449-492 | the number of posts shown for a sentiment equals its count in the distribution, and a sentiment absent from it has no posts |
| `Aggregate.StampedRows` | app.py:500-501 | `dropna(subset=['createdAt'])` keeps, in order, exactly the rows whose timestamp parsed, each as many times as it occurs |
| `Aggregate.MinDay` | app.py:504 | the earliest day is the day of some post and no later than any |
| `Aggregate.MaxDay` | app.py:505 | the latest day is the day of some post and no earlier than any |
| `Aggregate.GranularityOf` | app.py:504-517 | hourly exactly when there is a timestamp and all of them lie within 3 days of each other; daily exactly when they lie within 150 days but not within 3; monthly otherwise, including when no timestamp parsed |
| `Aggregate.Buckets` | app.py:508-516 | every stamped post gets the bucket of the chosen granularity |
| `Aggregate.Timeline` | app.py:523 | one entry per distinct bucket in chronological order, each with its exact number of posts, every post's bucket present, and the counts add up to the number of stamped posts |
| `Pipeline.RenderedTexts` | app.py:371 | `astype(str)` of the text column, one string per row |
| `Pipeline.ThemesFor` | app.py:489-497 | a sentiment's section counts its rows, and themes are extracted (from exactly its texts) only when it has rows |
| `Pipeline.SentimentThemesAll` | app.py:489-497 | one section per sentiment, in the order POSITIVO, NEGATIVO, NEUTRO |
| `Pipeline.Analyse` | app.py:340-547 | the report holds the posts in order, each with its own label, the call count, and every summary as defined above. With a `createdAt` column, only stamped rows go to the timeline and the CSV; without one, all rows go to the CSV |
| `Pipeline.ReportFacts` | app.py:342-547 | in every report each post is counted once in the distribution, the percentages add up to 100, at most one call per post is counted, and the CSV rows are a subsequence of the rows |
| `Pipeline.CollectedStamped` | app.py:183 | a collected frame with rows always has a `createdAt` column, so the timeline branch of line 499 is always taken |
| `Pipeline.Collect` | app.py:320-551 | no posts stops the run. A non-empty frame without `url` or `text` raises, and no other column is ever reported missing. The run ends in a report exactly when the frame has rows, `url` and `text`. The report is over the posts de-duplicated by url, and always has a timeline |
| `Pipeline.Run` | app.py:301-551 | each early stop happens exactly under its condition, in the source's order: missing token, missing key, no terms, no posts, missing column (only `url` or `text`). A run that passes every check ends in a report on the non-empty, de-duplicated posts of its terms, with a timeline |

## Left out

- The login page, CSS, sidebar widgets, session state and logout (lines 13-129 and 264-296). This includes the date inputs and their own stop when the start date follows the end date (lines 279-281). The page stops before the button exists in that case, and the dates are only handed to the scraper, which is a parameter here.
- The Apify client call and the Gemini `generate_content` calls (lines 155-165, 200, 226, 257) are network I/O. They are the parameters `fetch`, `reply` and `backend`. The scraper's `maxItems` limit and the date range are the scraper's business.
- The prompt wording. Each prompt header is a parameter (`generalHeader`, `topicHeader`), and only the posts' part of each prompt is modelled.
- The user-supplied context string only enters the prompts, so it is part of those parameters.
- The `ThreadPoolExecutor` itself (line 348): the model has no concurrency. Completion order is an arbitrary choice at each loop step.
- The progress bar and status text (lines 337-340, 358-360, 364-365).
- Spinners, every `st.*` display call, the Plotly charts (lines 461-482, 525-539), `@st.cache_data` (line 152) and the CSV encoding and download button (lines 545-551). The model keeps only which rows the CSV holds.
- Rounding and formatting: `round(2)`, the `'%'` suffix and the thousands separators (lines 395, 436, 458).
- `Aggregate.Percentages`: its own contract gives only one entry per count. What it promises is stated by `Aggregate.PercentagesSum` and `Aggregate.PercentagesBounds`. Percentages are exact reals, not floating point. A count table that adds up to zero maps to zeros, which a tally never produces.
- `pd.to_datetime` and `strftime` internals. A parsed timestamp is given as a day number, a month number and an hour by the `parseTime` parameter. Buckets are compared by these numbers, not by their formatted strings.
- `Strings.UpperChar`: upper-cases ASCII and the Latin-1 letters only. Characters whose upper case lies outside that range (`ß`, `µ`, `ÿ`, Greek, Cyrillic, ...) are left unchanged.
- `Strings.Upper`: inherits the range of `Strings.UpperChar` and always keeps the length. Python's `.upper()` maps `ß` to `SS` and so can lengthen a text; the model leaves `ß` unchanged.
- `Strings.ParseInt`: reads only an optional sign followed by decimal digits. `pd.to_numeric` also reads decimals (`"1.5"`), exponents (`"1e3"`), surrounding spaces (`" 7"`) and `inf`; the model calls those non-numeric. Floating-point cells are out of scope: numbers are integers.
- `Rows.ToNumeric`: gives `None` (NaN) for the decimal, exponent, padded and `inf` strings that `pd.to_numeric` reads, because it parses strings with `Strings.ParseInt`.
- `Rows.CoerceNumber`: turns those same strings into 0 after `fillna(0)`, where pandas would keep their value.
- `Rows.Render`: prints every null as `nan`. `astype(str)` prints a JSON `null` that pandas keeps as `None` as `None`. A nested object prints as `{...}` rather than as Python's `repr` of the dict.
- Ties: `sort_values` is not stable. The contracts of `Seqs.SortDesc`, `Seqs.Top` and the rankings fix no order among equal keys.
- `Pipeline.RenderedTexts`: the model has one null. A missing or NaN text renders as `nan`, which is what `astype(str)` gives for a missing cell. A JSON `null` that pandas keeps as `None` would render as `None` instead, and `Rows.Render` does not tell the two apart.
- `Aggregate.UserNames`: lists the group keys in the order each name first occurs. `groupby` (line 427) sorts its keys. The only effect is on the order of users with equal follower counts in `Aggregate.TopUsers`, which no contract fixes anyway.
