# Securl URL features in Dafny

Securl classifies URLs as benign, defacement, phishing or malware. It turns each URL into a row of twenty lexical features:

- the length;
- the counts of thirteen tokens;
- whether the host name occurs in the URL;
- whether the scheme is `https`;
- the digit and letter counts;
- whether a known URL shortener occurs;
- whether an IP address occurs.

The Streamlit page (`app/app.py`) builds that row for a URL the user types in. It asks a fitted model for a class code and shows the verdict with a logo. The training script (`load_data/load_data.py`) builds the same columns for the whole data set.

This project models that lexical core and what is proved about it:

- `Strings` models the Python string operations the code relies on: `count`, `startswith`, `split`, and `isnumeric`/`isalpha` on ASCII. It also defines substring occurrence (`Contains`), which is what `re.search` does for a literal pattern, and `sep.join` (`Join`), which the code does not call but which states the inverse of `split`.
- `IpRegex` models the IP-address regular expression of `ip_address`, exactly as written.
- `UrlFeatures` models the six feature functions of `url_utilities/url.py`. `digit_count` and `letter_count` are loops, the four others are single checks.
- `App` models the page's logic:
  - `get_features`, as a loop appending to the row;
  - `inference` with the `change_image` state, as a `Page` class;
  - the model-file choice;
  - the classification-report formatting loop.
- `LoadData` models `_load_data` up to the drop:
  - the `www.` strip;
  - the category codes;
  - the feature columns, written into a data frame one by one. The frame is a `Frame` class with ordered column names and one cell sequence per column.

`load_data/load_data.py` repeats the six feature functions word for word (lines 35-177). The model has one definition of each and uses it on both sides. Its central result is `LoadData.TrainingRowIsFeatureVector`: the training matrix that `LoadData.LoadData` leaves puts, under column `k` of row `r`, entry `k` of the row `get_features` builds for the stripped URL `r`.

Two facts of the code are stated as properties rather than fixed:

- The training URLs are stripped of `www.` and the typed URL is not. `LoadData.TrainingLengthAfterStrip` shows a URL whose training length differs from the length seen at inference.
- The summary line of the `abnormal_url` docstring (`url_utilities/url.py:30`) says the function checks that the URL does *not* contain its host name. The docstring's Returns line (`url_utilities/url.py:36`) and the code agree with each other: 1 when the host name is found. The model follows them.

The comments of the IP-address pattern name four forms: IPv4, IPv4 with port, hexadecimal IPv4 and IPv6. The code has five alternatives:

- The first two are identical; the one commented "with port" has no port.
- A missing `|` joins the hexadecimal dotted quad to the eight hextets as one alternative: the quad, `/`, then the eight hextets.

The model follows the code. `UrlFeatures.IpAddressBareIpv6` shows that a bare IPv6 address is not detected.

## Model

| member | source | states |
|---|---|---|
| `UrlFeatures.AbnormalUrl` | url_utilities/url.py:28-48 | the flag is 0 or 1, and 1 exactly when the host name, read as a regular expression whose `.` matches any character but a newline, matches somewhere in the URL |
| `UrlFeatures.AbnormalUrlLiteralHost` | url_utilities/url.py:42-46 | a host name that occurs literally in the URL gives 1 |
| `UrlFeatures.AbnormalUrlDotFreeHost` | url_utilities/url.py:42-48 | for a host name without `.`, the flag is 1 if and only if the host name occurs in the URL |
| `UrlFeatures.AbnormalUrlWildcard` | url_utilities/url.py:44 | the regex reading is observable: `http://A.B/axb`, with host `a.b`, gives 1 although `a.b` does not occur in it |
| `UrlFeatures.AbnormalUrlNoHost` | url_utilities/url.py:42-48 | with no host name, `str(None)` is searched: the flag is 1 if and only if `None` occurs in the URL |
| `UrlFeatures.AbnormalUrlExample` | url_utilities/url.py:39-40 | the docstring's example URL gives 1 |
| `Wrappers.Str` | url_utilities/url.py:43 | Python's `str` of an optional string, used for `str(hostname)` here and for the f-string of the verdict (app/app.py:183): the string itself, or `None` when there is none |
| `UrlFeatures.PatternSearch` | url_utilities/url.py:44 | the search succeeds when the pattern, with `.` matching any character but a newline, matches at some index of the URL (a definition, equated with literal occurrence by the next two lemmas) |
| `UrlFeatures.OccurrenceIsMatch` | url_utilities/url.py:44 | a literal occurrence of the pattern is a regex match at the same place |
| `UrlFeatures.DotFreeMatchIsOccurrence` | url_utilities/url.py:44 | a regex match of a pattern without `.` is a literal occurrence |
| `UrlFeatures.HttpSecure` | url_utilities/url.py:51-70 | the flag is 0 or 1, and 1 exactly when the parsed scheme is the string `https` |
| `UrlFeatures.HttpSecureExamples` | url_utilities/url.py:62-70 | `https` gives 1; `http` and `https+unix` give 0 |
| `UrlFeatures.DigitCount` | url_utilities/url.py:73-91 | the loop returns the number of positions holding a numeric character |
| `UrlFeatures.DigitCountExample` | url_utilities/url.py:84-85 | the docstring example has 3 digits |
| `UrlFeatures.LetterCount` | url_utilities/url.py:94-112 | the loop returns the number of positions holding a letter |
| `UrlFeatures.LetterCountExample` | url_utilities/url.py:105-106 | the docstring example has 28 letters |
| `UrlFeatures.DigitsAndLettersBound` | url_utilities/url.py:87-112 | digits plus letters never exceed the length of the URL |
| `Strings.IsNumeric` | url_utilities/url.py:89 | `str.isnumeric` on one character, read as the ASCII digits (a definition) |
| `Strings.IsAlpha` | url_utilities/url.py:110 | `str.isalpha` on one character, read as the ASCII letters (a definition) |
| `Strings.CountIf` | url_utilities/url.py:88-91 | the count of matching positions is at most the length |
| `Strings.CountIfIsPositionCount` | url_utilities/url.py:88-91 | the count equals the size of the set of matching positions |
| `UrlFeatures.ShorteningService` | url_utilities/url.py:115-141 | the flag is 0 or 1, and 1 exactly when one of the 71 literal shortener patterns occurs in the URL |
| `Strings.Contains` | url_utilities/url.py:137 | `re.search` of a literal pattern: the pattern occurs at some index of the text (a definition, used by `HasShortener` and `CountPositive`) |
| `UrlFeatures.HasShortener` | url_utilities/url.py:129-137 | some alternative of the shortener pattern occurs literally in the URL (a definition; its `\.` are literal dots) |
| `UrlFeatures.ShorteningInContext` | url_utilities/url.py:129-141 | text added before or after a URL flagged 1 keeps it flagged 1 |
| `UrlFeatures.ShorteningExample` | url_utilities/url.py:126-127 | `https://bit.ly/abc123` gives 1 |
| `UrlFeatures.IpAddress` | url_utilities/url.py:144-170 | the flag is 0 or 1, and 1 exactly when the five-alternative pattern matches somewhere in the URL |
| `UrlFeatures.IpAddressExample` | url_utilities/url.py:155-156 | `https://192.168.0.1/path/to/page` gives 1 |
| `UrlFeatures.IpAddressNeedsDigitAndDot` | url_utilities/url.py:158-166 | a URL without a digit, or without a `.`, gives 0 |
| `UrlFeatures.IpAddressBareIpv6` | url_utilities/url.py:163-164 | a bare eight-hextet IPv6 address gives 0, because its group is joined to the hexadecimal quad |
| `UrlFeatures.IpAddressWithoutColon` | url_utilities/url.py:158-166 | in a URL without `:`, the flag is 1 if and only if a dotted quad of byte-valued octets occurs |
| `IpRegex.IpPatternAt` | url_utilities/url.py:159-166 | the range matches one of the five alternatives as written, the second repeating the first (a definition, characterised by the lemmas below) |
| `IpRegex.SearchIp` | url_utilities/url.py:158-166 | `re.search` finds a match: some range of the URL matches the alternation (a definition, characterised by `SearchIpReduced` and `SearchIpWithoutColon`) |
| `IpRegex.OctetsAreBytes` | url_utilities/url.py:159-166 | both octet forms of the pattern accept the same texts, and these are exactly the decimal numbers 0 to 255 |
| `IpRegex.SearchNeedsDigitAndDot` | url_utilities/url.py:158-166 | every match of the pattern contains a decimal digit and a `.` |
| `IpRegex.MatchHasDigitAndDot` | url_utilities/url.py:159-166 | each of the five alternatives contains a digit and a `.` within its match |
| `IpRegex.PatternReduces` | url_utilities/url.py:159-166 | every match contains a match of the strict dotted quad, of the hexadecimal alternative or of the port alternative |
| `IpRegex.SearchIpReduced` | url_utilities/url.py:158-166 | the search succeeds if and only if one of those three reduced alternatives occurs |
| `IpRegex.LooseQuadIsStrictQuad` | url_utilities/url.py:159-166 | the quad of the first alternative is also a quad of the strict form |
| `IpRegex.SearchIpWithoutColon` | url_utilities/url.py:158-166 | without a `:`, the search succeeds if and only if a strict dotted quad occurs |
| `App.FeatColumnsLayout` | app/app.py:173 | the column names are `url_len`, the thirteen tokens in order, then the six feature names |
| `App.TokenCounts` | app/app.py:40-41 | one count per token, entry `k` being the non-overlapping count of token `k` |
| `App.UrlFeatureValues` | app/app.py:42-47 | the last six entries of the row, one per feature name |
| `App.FeatureVector` | app/app.py:36-48 | the row has exactly one entry per column name (20) |
| `App.GetFeatures` | app/app.py:36-48 | the appending loop builds exactly the row of `FeatureVector`: length, token counts, then the six features |
| `App.FeatureVectorLayout` | app/app.py:39-47 | entry 0 is the length, entries 1 to 13 the token counts in token order, entries 14 to 19 the six features in column order |
| `App.FeatureVectorFlags` | app/app.py:42-47 | entries 14, 15, 18 and 19 are each 0 or 1 |
| `App.FeatureVectorTokenBounds` | app/app.py:38-41 | every token count is at most the length, and twice the `//` count is at most the length |
| `App.FeatureVectorDisjointBound` | app/app.py:38-45 | the twelve one-character counts plus the digit and letter entries never exceed the length |
| `App.SingleCharTokensDistinct` | app/app.py:38 | the first twelve tokens are distinct single characters, neither digits nor letters |
| `Strings.Count` | app/app.py:41 | `str.count`, scanning left to right and resuming after each occurrence (a recursive definition; its properties are the lemmas below) |
| `Strings.CountExample` | app/app.py:41 | occurrences do not overlap: `"///".count("//")` is 1 |
| `Strings.CountPositive` | app/app.py:41 | the count is positive if and only if the token occurs in the URL |
| `Strings.CountBound` | app/app.py:41 | a non-overlapping count of `t` takes `\|t\|` characters per occurrence |
| `Strings.DisjointCountsBound` | app/app.py:41-45 | counts of distinct non-alphanumeric characters plus digits plus letters never exceed the length |
| `App.Verdict` | app/app.py:62-73 | a message exactly for the codes 0 to 3, and none for any other code |
| `App.VerdictInjective` | app/app.py:62-73 | different codes never give the same message |
| `App.VerdictImage` | app/app.py:62-73 | a logo index exactly for the codes 0 to 3; it is 1 (green) exactly for code 0, 2 (red) for each of the codes 1 to 3, and always a valid index |
| `App.Page.constructor` | app/app.py:26 | the page starts on image index 0 showing the first logo |
| `App.Page.ChangeImage` | app/app.py:51-54 | sets the index and shows the logo at that index |
| `App.Page.Inference` | app/app.py:57-73 | returns the message for the predicted code; switches to logo 1 for benign and logo 2 for the three threats; leaves the page as it was for any other code |
| `App.Page.Detect` | app/app.py:171-183 | shows `### ` followed by the verdict text for the chosen model's prediction on the row of `get_features`, `None` when there is no verdict; the page then shows logo 1 for a benign prediction and logo 2 for a threat, and is unchanged for any other code |
| `App.VerdictShownAsNone` | app/app.py:183 | the heading reads `None` if and only if the prediction has no verdict |
| `App.ModelPath` | app/app.py:174-179 | a model file exactly for the three select-box options |
| `App.ModelPathInjective` | app/app.py:174-179 | different options load different model files |
| `App.ReportFile` | app/app.py:13-24 | a report file exactly for the three keys of `stats` |
| `App.SidebarReport` | app/app.py:113-127 | for each select-box choice, the sidebar formats the report read from that choice's file, and the report can be read back out of it |
| `Strings.StartsWith` | app/app.py:122 | `str.startswith`: the text begins with the prefix (a definition) |
| `App.IsHeading` | app/app.py:122 | a report line starts with `precision` or `accuracy` (a definition, the marker choice of `MarkLine`) |
| `App.FormattedReport` | app/app.py:118-127 | the whole sidebar string: the header, each split line marked and followed by a newline, then the footer (a definition, equated with the loop by `FormatReport` and inverted by `ReportRoundTrip`) |
| `App.MarkLine` | app/app.py:122-125 | a line keeps its text behind a two-character marker: `# ` for lines starting with `precision` or `accuracy`, two spaces otherwise |
| `App.FormatReport` | app/app.py:118-127 | the loop builds the header, every split line marked and followed by a newline, then the footer |
| `App.ReportRoundTrip` | app/app.py:118-127 | removing the header, the footer and the markers gives the report back: every line appears once, in order |
| `App.UnmarkMarkLines` | app/app.py:122-125 | taking the markers off the marked lines gives the lines back |
| `Strings.Split` | app/app.py:118 | `split("\n")` gives at least one piece, and no piece contains a newline |
| `Strings.JoinSplit` | app/app.py:118 | joining the pieces of a split gives the text back |
| `Strings.SplitJoin` | app/app.py:118 | splitting the join of newline-free lines gives the lines back |
| `LoadData.WwwAt` | load_data/load_data.py:183 | the pattern `www.` matches at an index: three `w` and one character other than a newline (a definition) |
| `LoadData.StripWww` | load_data/load_data.py:183 | the strip never lengthens a URL and shortens it by a multiple of 4 |
| `LoadData.StripWwwUnchanged` | load_data/load_data.py:183 | a URL is left unchanged if and only if no `www` followed by a non-newline character occurs in it |
| `LoadData.StripWwwWithoutWww` | load_data/load_data.py:183 | a URL that does not contain `www` is unchanged |
| `LoadData.StripWwwKeepsPrefix` | load_data/load_data.py:183 | text in which no match starts is kept, and the strip goes on after it |
| `LoadData.StripWwwExampleScheme` | load_data/load_data.py:183 | `http://www.a.com` keeps `http://` |
| `LoadData.StripWwwExampleHost` | load_data/load_data.py:183 | `www.a.com` becomes `a.com` |
| `LoadData.StripWwwWildcard` | load_data/load_data.py:183 | the `.` is a wildcard: `www-x` becomes `x` |
| `LoadData.StripWwwLeftmost` | load_data/load_data.py:183 | matches are taken left to right: `wwwwww.x` becomes `ww.x` |
| `LoadData.TrainingLengthAfterStrip` | load_data/load_data.py:183-189 | the training `url_len` of `http://www.a.com` is less than its length at inference |
| `LoadData.StripAll` | load_data/load_data.py:183 | the `url` column after the strip: one stripped URL per row, none longer than before |
| `LoadData.LengthColumn` | load_data/load_data.py:189 | row `r` holds the length of URL `r` |
| `LoadData.CountColumn` | load_data/load_data.py:193 | row `r` holds the count of the token in URL `r` |
| `LoadData.TokenColumns` | load_data/load_data.py:191-193 | one column per token, in token order, each the count column of that token |
| `LoadData.AbnormalColumn` | load_data/load_data.py:194 | every cell is 0 or 1, and 1 exactly when the host name of that URL matches in it |
| `LoadData.HttpsColumn` | load_data/load_data.py:195 | every cell is 0 or 1, and 1 exactly when that URL's scheme is `https` |
| `LoadData.ShorteningColumn` | load_data/load_data.py:198 | every cell is 0 or 1, and 1 exactly when a shortener occurs in that URL |
| `LoadData.IpColumn` | load_data/load_data.py:199 | every cell is 0 or 1, and 1 exactly when the IP pattern matches in that URL |
| `LoadData.CategoryCode` | load_data/load_data.py:184 | a code exactly for the four labels benign, defacement, phishing and malware |
| `LoadData.CategoryCodeNamedByVerdict` | load_data/load_data.py:184 | the message `inference` gives a label's code names that label, so the map inverts the verdicts |
| `LoadData.VerdictHasCategory` | load_data/load_data.py:184 | every code with a verdict is the code of one of the four labels |
| `LoadData.CategoryCodeInjective` | load_data/load_data.py:184 | different labels get different codes |
| `LoadData.ReplaceCategory` | load_data/load_data.py:186 | a cell becomes a number exactly when it already was one or is one of the four labels |
| `LoadData.Replaced` | load_data/load_data.py:186 | `df.replace(rem)` on the column: one cell per row, each replaced as `ReplaceCategory` says |
| `LoadData.ReplacedLabel` | load_data/load_data.py:185-186 | in the `Category` column each of the four labels becomes the code whose verdict names it; any other label stays as it is |
| `LoadData.TrainingTokensAreTokens` | load_data/load_data.py:191 | the token list of the training script is the token list of `get_features` (app/app.py:38) |
| `LoadData.TokensDistinct` | load_data/load_data.py:191 | the thirteen tokens are distinct and non-empty |
| `LoadData.Frame.constructor` | load_data/load_data.py:182 | the frame read from the data set has the columns `url` and `type` |
| `LoadData.Frame.Column` | load_data/load_data.py:185 | `df[name]` is the cell sequence of the first column with that name, one cell per row |
| `LoadData.Frame.SetColumn` | load_data/load_data.py:185-199 | assigning a column overwrites an existing column in place and appends a new one at the end |
| `LoadData.Frame.ReplaceCategories` | load_data/load_data.py:186 | the replacement changes only the named column, cell by cell |
| `LoadData.Frame.FromColumns` | load_data/load_data.py:202 | the new frame `df.drop` returns holds exactly the given names and cells |
| `LoadData.Frame.Drop` | load_data/load_data.py:202 | a new frame with the remaining columns in their order |
| `LoadData.ReadFrame` | load_data/load_data.py:182-190 | the frame holds the stripped `url`, `type`, the codes in `Category`, `url_len` and `domain`, in that order |
| `LoadData.AddTokenColumns` | load_data/load_data.py:191-193 | the loop appends one count column per token, in token order |
| `LoadData.AddFeatureColumns` | load_data/load_data.py:194-199 | the six feature columns are appended in the order of their names |
| `LoadData.SetColumns` | load_data/load_data.py:194-199 | assigning new columns one after another appends them, names and cells, in that order |
| `LoadData.DigitsOf` | load_data/load_data.py:196 | row `r` holds the digit count of URL `r` |
| `LoadData.LettersOf` | load_data/load_data.py:197 | row `r` holds the letter count of URL `r` |
| `LoadData.FeatureColumns` | load_data/load_data.py:194-199 | six columns, one per feature name, each with one cell per URL |
| `LoadData.TrainingColumns` | load_data/load_data.py:189-202 | one column per name of `feat_cols`, each with one cell per URL |
| `LoadData.DigitsColumn` | load_data/load_data.py:196 | one digit count per URL |
| `LoadData.LettersColumn` | load_data/load_data.py:197 | one letter count per URL |
| `LoadData.SplitFrame` | load_data/load_data.py:202-203 | after the drop the columns are exactly those `get_features` names, and `y` is the `Category` column |
| `LoadData.LoadData` | load_data/load_data.py:180-203 | the training frame has the inference columns in order, holds the features of the stripped URLs, and `y` holds the category codes |
| `LoadData.TrainingRowIsFeatureVector` | load_data/load_data.py:189-202 | row `r`, column `k` of the training matrix is entry `k` of the `get_features` row of stripped URL `r` |
| `LoadData.DropLayout` | load_data/load_data.py:202 | of the leading columns only `url_len` survives the drop, and every later column survives in order |

## Left out

- `urlparse` is not modelled. Each operation takes it as a function parameter `parse` returning the scheme and the host name. The lower-casing of the scheme and the host therefore happens inside that parameter. The parameter is total, whereas `urlparse` raises `ValueError` on some URLs (`http://[x/`, an invalid IPv6 host), and `get_features` and `_load_data` then raise too.
- `process_tld` and the `tld` library are not modelled. The `domain` column takes its values from a parameter `tld`, and the column is dropped in the end.
- Scaling and prediction are not modelled: `StandardScaler`, the three scikit-learn models, floating point, `joblib` loading and the training scripts. `inference` takes the scaled prediction as a parameter `predict` returning an integer; the detection run takes one `classify` that receives the scaler path, the model path and the row.
- The interface and file handling are not modelled: the Streamlit page layout, the buttons, base64 images, the reading of the report files and of the CSV, the train/test split and the JSON output. The report text and the data-set columns come in as values.
- `UrlFeatures.AbnormalUrl`: requires that the host name contain no regular-expression metacharacter other than `.`. Other host names make `re.search` compile a different pattern or raise `re.error`, and that is not modelled; the requirement is propagated to `get_features`, `Detect` and `LoadData`.
- `Strings.IsNumeric` and `Strings.IsAlpha` cover ASCII only. Python's Unicode classes also accept other digits and letters; `\d` in the IP pattern is likewise ASCII.
- `UrlFeatures.DigitsAndLettersBound`, `App.FeatureVectorDisjointBound` and `Strings.DisjointCountsBound` hold only for these ASCII classes. Python's `isnumeric` and `isalpha` overlap: a CJK numeral such as `一` is both, so on `一二三四五六七八九十.com` `digit_count` gives 10 and `letter_count` 13, more than the 14 characters together.
- `UrlFeatures.IpAddressNeedsDigitAndDot` says that a URL without an ASCII digit gives 0. Python's `\d` also matches other decimal digits, such as the Arabic-Indic `١`, so `http://١.١.١.١/` is flagged by the code and not by the model.
- `df.replace(rem)` rebinds `df` to a new frame; the model updates the frame in place, since the old frame is not used again.
- `pd.read_csv` may produce missing URLs, and `len(str(x))` would then count the text `nan`. The model takes every URL as a string.
- Exceptions are not modelled beyond the preconditions: `Frame.Drop` requires every dropped name to be a column, where pandas raises `KeyError`.
