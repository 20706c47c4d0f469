/**
 * The logic of the Streamlit front end `app/app.py`: the 20-entry feature
 * row, the prediction-to-verdict mapping with the logo it shows, the
 * formatting of a classification report for the sidebar, and the choice of
 * the model file.
 *
 * The fitted scaler and classifier are one function parameter `classify`
 * from the scaler path, the model path and the feature row to the predicted
 * class code.
 */
module App {
  import opened Wrappers
  import opened Strings
  import opened UrlFeatures

  // ---------------------------------------------------------------------
  // get_features

  /** The substrings whose counts make entries 1 to 13 of the row. */
  const Tokens: seq<string> := ["@", "?", "-", "=", ".", "#", "%", "+", "$", "!", "*", ",", "//"]

  /** The column names given to the row before scaling. */
  const FeatColumns: seq<string> := ["url_len", "@", "?", "-", "=", ".", "#", "%", "+", "$", "!", "*", ",", "//",
    "abnormal_url", "https", "digits", "letters", "shortening_service", "ip_address"]

  /** The names of the last six columns. */
  const FeatureNames: seq<string> := ["abnormal_url", "https", "digits", "letters", "shortening_service", "ip_address"]

  /** The columns name the length, then the thirteen tokens themselves, then the six URL features. */
  lemma FeatColumnsLayout()
    ensures FeatColumns == ["url_len"] + Tokens + FeatureNames
    ensures FeatColumns[0] == "url_len" && FeatColumns[1..14] == Tokens && FeatColumns[14..] == FeatureNames
  {
    assert FeatColumns == ["url_len"] + Tokens + FeatureNames;
  }

  predicate TokensNonEmptyFact() {
    forall k | 0 <= k < |Tokens| :: Tokens[k] != []
  }

  /** The first twelve tokens, all of one character. */
  const SingleCharTokens: seq<string> := ["@", "?", "-", "=", ".", "#", "%", "+", "$", "!", "*", ","]

  lemma TokensSplit()
    ensures Tokens == SingleCharTokens + ["//"]
  {
  }

  lemma TokensNonEmpty()
    ensures TokensNonEmptyFact()
  {
  }

  /** `[s.count(t) for t in ts]`. */
  function TokenCounts(url: string, ts: seq<string>): (counts: seq<int>)
    requires forall k | 0 <= k < |ts| :: ts[k] != []
    ensures |counts| == |ts|
    ensures forall k | 0 <= k < |ts| :: counts[k] == Count(url, ts[k])
  {
    if ts == [] then []
    else TokenCounts(url, ts[..|ts| - 1]) + [Count(url, ts[|ts| - 1])]
  }

  /** The last six entries of the row, where `parts` is `urlparse(url)`. */
  function UrlFeatureValues(url: string, parts: UrlParts): (values: seq<int>)
    requires HostnameSupported(parts.hostname)
    ensures |values| == |FeatureNames|
  {
    [AbnormalUrl(url, parts), HttpSecure(parts), CountIf(url, IsNumeric), CountIf(url, IsAlpha),
     ShorteningService(url), IpAddress(url)]
  }

  /**
   * The row `get_features(url)` returns, where `parts` is `urlparse(url)`:
   * the length, the thirteen token counts, then the six URL features.
   */
  function FeatureVector(url: string, parts: UrlParts): (row: seq<int>)
    requires HostnameSupported(parts.hostname)
    ensures |row| == |FeatColumns|
  {
    TokensNonEmpty();
    [|url|] + TokenCounts(url, Tokens) + UrlFeatureValues(url, parts)
  }

  /** `get_features(url)`: the row built by appending, `parse` standing for `urlparse`. */
  method GetFeatures(url: string, parse: string -> UrlParts) returns (row: seq<int>)
    requires HostnameSupported(parse(url).hostname)
    ensures row == FeatureVector(url, parse(url))
  {
    TokensNonEmpty();
    row := [];
    row := row + [|url|];
    for i := 0 to |Tokens|
      invariant row == [|url|] + TokenCounts(url, Tokens[..i])
    {
      assert Tokens[..i + 1][..i] == Tokens[..i];
      row := row + [Count(url, Tokens[i])];
    }
    assert Tokens[..|Tokens|] == Tokens;
    var digits := DigitCount(url);
    var letters := LetterCount(url);
    var features := [AbnormalUrl(url, parse(url))];
    features := features + [HttpSecure(parse(url))];
    features := features + [digits];
    features := features + [letters];
    features := features + [ShorteningService(url)];
    features := features + [IpAddress(url)];
    row := row + features;
  }

  /**
   * The row holds the length, the count of each token in token order, then
   * the six URL features; with `FeatColumnsLayout`, each entry sits under
   * the column named after it.
   */
  lemma FeatureVectorLayout(url: string, parts: UrlParts)
    requires HostnameSupported(parts.hostname)
    ensures FeatureVector(url, parts)[0] == |url|
    ensures TokensNonEmptyFact() && FeatureVector(url, parts)[1..14] == TokenCounts(url, Tokens)
    ensures FeatureVector(url, parts)[14..] == UrlFeatureValues(url, parts)
  {
    FeatureVectorHead(url, parts);
    FeatureVectorCounts(url, parts);
    FeatureVectorTail(url, parts);
  }

  lemma FeatureVectorHead(url: string, parts: UrlParts)
    requires HostnameSupported(parts.hostname)
    ensures FeatureVector(url, parts)[0] == |url|
  {
    TokensNonEmpty();
    ThreeParts([|url|], TokenCounts(url, Tokens), UrlFeatureValues(url, parts));
  }

  lemma FeatureVectorCounts(url: string, parts: UrlParts)
    requires HostnameSupported(parts.hostname)
    ensures TokensNonEmptyFact() && FeatureVector(url, parts)[1..14] == TokenCounts(url, Tokens)
  {
    TokensNonEmpty();
    ThreeParts([|url|], TokenCounts(url, Tokens), UrlFeatureValues(url, parts));
  }

  lemma FeatureVectorTail(url: string, parts: UrlParts)
    requires HostnameSupported(parts.hostname)
    ensures FeatureVector(url, parts)[14..] == UrlFeatureValues(url, parts)
  {
    TokensNonEmpty();
    ThreeParts([|url|], TokenCounts(url, Tokens), UrlFeatureValues(url, parts));
  }

  /** The three parts of a concatenation, recovered by slicing. */
  lemma ThreeParts<T>(a: seq<T>, b: seq<T>, c: seq<T>)
    ensures (a + b + c)[..|a|] == a
    ensures (a + b + c)[|a|..|a| + |b|] == b
    ensures (a + b + c)[|a| + |b|..] == c
  {
  }

  /** The four flag entries are 0 or 1. */
  lemma FeatureVectorFlags(url: string, parts: UrlParts)
    requires HostnameSupported(parts.hostname)
    ensures forall k | k in {14, 15, 18, 19} :: 0 <= FeatureVector(url, parts)[k] <= 1
  {
    FeatureVectorLayout(url, parts);
    var row := FeatureVector(url, parts);
    assert row[14] == row[14..][0] && row[15] == row[14..][1];
    assert row[18] == row[14..][4] && row[19] == row[14..][5];
  }

  /** Each count is at most the length; the non-overlapping `//` count takes two characters per hit. */
  lemma FeatureVectorTokenBounds(url: string, parts: UrlParts)
    requires HostnameSupported(parts.hostname)
    ensures forall k | 1 <= k < 14 :: 0 <= FeatureVector(url, parts)[k] <= |url|
    ensures 2 * FeatureVector(url, parts)[13] <= |url|
  {
    FeatureVectorLayout(url, parts);
    var row := FeatureVector(url, parts);
    forall k | 1 <= k < 14
      ensures 0 <= row[k] <= |url|
    {
      assert row[k] == row[1..14][k - 1] == Count(url, Tokens[k - 1]);
      CountBound(url, Tokens[k - 1]);
    }
    assert row[13] == row[1..14][12] == Count(url, "//");
    CountBound(url, "//");
  }

  /**
   * The twelve one-character counts, the digits and the letters count
   * distinct classes of characters (the ASCII digit and letter classes), so
   * together they are at most the length.
   */
  lemma FeatureVectorDisjointBound(url: string, parts: UrlParts)
    requires HostnameSupported(parts.hostname)
    ensures SumCounts(url, SingleCharTokens) + FeatureVector(url, parts)[16] + FeatureVector(url, parts)[17] <= |url|
  {
    FeatureVectorDigitsLetters(url, parts);
    SingleCharTokensBound(url);
  }

  lemma FeatureVectorDigitsLetters(url: string, parts: UrlParts)
    requires HostnameSupported(parts.hostname)
    ensures FeatureVector(url, parts)[16] == CountIf(url, IsNumeric)
    ensures FeatureVector(url, parts)[17] == CountIf(url, IsAlpha)
  {
    FeatureVectorTail(url, parts);
    var row := FeatureVector(url, parts);
    assert row[16] == row[14..][2] && row[17] == row[14..][3];
  }

  lemma SingleCharTokensBound(url: string)
    ensures SumCounts(url, SingleCharTokens) + CountIf(url, IsNumeric) + CountIf(url, IsAlpha) <= |url|
  {
    SingleCharTokensDistinct();
    DisjointCountsBound(url, SingleCharTokens);
  }

  /** The single-character tokens are distinct, and neither digits nor letters. */
  lemma SingleCharTokensDistinct()
    ensures forall k | 0 <= k < |SingleCharTokens| :: |SingleCharTokens[k]| == 1
    ensures forall i, j | 0 <= i < j < |SingleCharTokens| :: SingleCharTokens[i] != SingleCharTokens[j]
    ensures forall k | 0 <= k < |SingleCharTokens| ::
      !IsNumeric(SingleCharTokens[k][0]) && !IsAlpha(SingleCharTokens[k][0])
  {
  }

  // ---------------------------------------------------------------------
  // inference and change_image

  /** The logos the page shows. */
  const ImageUrls: seq<string> := ["images/logo.png", "images/green_logo.png", "images/red_logo.png"]

  /** The message for a category, ending in the category's emoji. */
  function Message(category: string, mark: string): string {
    "This is a " + category + " URL " + mark
  }

  /** The message `inference` returns for a predicted class code (`None` when no branch applies). */
  function Verdict(code: int): (message: Option<string>)
    ensures message.Some? <==> 0 <= code <= 3
  {
    if code == 0 then Some(Message("benign", "\U{2705}"))
    else if code == 1 then Some(Message("defacement", "\U{274C}"))
    else if code == 2 then Some(Message("phishing", "\U{1F3A3}"))
    else if code == 3 then Some(Message("malware", "\U{1F9A0}"))
    else None
  }

  /** Different codes give different messages. */
  lemma VerdictInjective(a: int, b: int)
    requires Verdict(a).Some? && Verdict(a) == Verdict(b)
    ensures a == b
  {
  }

  /** The logo `inference` switches to: green for benign, red for the three threats. */
  function VerdictImage(code: int): (index: Option<nat>)
    ensures index.Some? <==> Verdict(code).Some?
    ensures index.Some? ==> index.value < |ImageUrls|
    ensures index == Some(1) <==> code == 0
    ensures 1 <= code <= 3 ==> index == Some(2)
  {
    if code == 0 then Some(1)
    else if 1 <= code <= 3 then Some(2)
    else None
  }

  /** The page: the global `current_image_index` and the image shown in `image_container`. */
  class Page {
    var currentImageIndex: nat
    var shownImage: string

    /** The module-level set-up: index 0, and the first logo shown. */
    constructor ()
      ensures currentImageIndex == 0 && shownImage == ImageUrls[0]
    {
      currentImageIndex := 0;
      shownImage := ImageUrls[0];
    }

    /** `change_image(index)`. */
    method ChangeImage(index: nat)
      requires index < |ImageUrls|
      modifies this
      ensures currentImageIndex == index && shownImage == ImageUrls[index]
    {
      currentImageIndex := index;
      shownImage := ImageUrls[currentImageIndex];
    }

    /**
     * `inference(row, scaler, model, feat_cols)`, with `predict` standing
     * for scaling the row and predicting its class. The row must have one
     * entry per column, or the data frame cannot be built.
     */
    method Inference(row: seq<int>, predict: seq<int> -> int) returns (result: Option<string>)
      requires |row| == |FeatColumns|
      modifies this
      ensures result == Verdict(predict(row))
      ensures VerdictImage(predict(row)).Some? ==>
        currentImageIndex == VerdictImage(predict(row)).value && shownImage == ImageUrls[currentImageIndex]
      ensures VerdictImage(predict(row)).None? ==>
        currentImageIndex == old(currentImageIndex) && shownImage == old(shownImage)
    {
      var prediction := predict(row);
      if prediction == 0 {
        ChangeImage(1);
        return Some(Message("benign", "\U{2705}"));
      } else if prediction == 1 {
        ChangeImage(2);
        return Some(Message("defacement", "\U{274C}"));
      } else if prediction == 2 {
        ChangeImage(2);
        return Some(Message("phishing", "\U{1F3A3}"));
      } else if prediction == 3 {
        ChangeImage(2);
        return Some(Message("malware", "\U{1F9A0}"));
      }
      return None;
    }

    /**
     * The detection run (the body of `if detect_button`): the model file of
     * the chosen model, the feature row, the verdict, and the markdown
     * heading that shows it (an f-string shows `None` as `None`). The button
     * is enabled only for a non-empty URL, and the choice comes from the
     * select box.
     */
    method Detect(url: string, choice: string, parse: string -> UrlParts,
                  classify: (string, string, seq<int>) -> int) returns (shown: string)
      requires url != []
      requires choice in ModelChoices
      requires HostnameSupported(parse(url).hostname)
      modifies this
      ensures ModelPath(choice).Some?
      ensures shown == "### " + Str(Verdict(
        classify(ScalerPath, ModelPath(choice).value, FeatureVector(url, parse(url)))))
      ensures var code := classify(ScalerPath, ModelPath(choice).value, FeatureVector(url, parse(url)));
        VerdictImage(code).Some? ==>
          currentImageIndex == VerdictImage(code).value && shownImage == ImageUrls[currentImageIndex]
      ensures var code := classify(ScalerPath, ModelPath(choice).value, FeatureVector(url, parse(url)));
        VerdictImage(code).None? ==>
          currentImageIndex == old(currentImageIndex) && shownImage == old(shownImage)
    {
      var modelPath := ModelPath(choice);
      var r := GetFeatures(url, parse);
      var result := Inference(r, row => classify(ScalerPath, modelPath.value, row));
      shown := "### " + Str(result);
    }
  }

  /** The heading tells a verdict from its absence: no message reads `None`. */
  lemma VerdictShownAsNone(code: int)
    ensures Str(Verdict(code)) == "None" <==> Verdict(code).None?
  {
    if Verdict(code).Some? {
      assert |Verdict(code).value| > |"None"|;
    }
  }

  // ---------------------------------------------------------------------
  // Model selection

  /** The options of the model select box. */
  const ModelChoices: seq<string> := ["Random Forest", "Stochastic Gradient Descent", "Naive-Bayes"]

  const ScalerPath: string := "models/scaler.joblib"

  /** The model file of a choice; `None` where no branch assigns `model_path`. */
  function ModelPath(choice: string): (path: Option<string>)
    ensures path.Some? <==> choice in ModelChoices
  {
    if choice == "Random Forest" then Some("models/rf.joblib")
    else if choice == "Stochastic Gradient Descent" then Some("models/sgd.joblib")
    else if choice == "Naive-Bayes" then Some("models/nb.joblib")
    else None
  }

  /** The classification-report file read for each key of `stats`. */
  function ReportFile(choice: string): (path: Option<string>)
    ensures path.Some? <==> choice in ModelChoices
  {
    if choice == "Random Forest" then Some("models_stats/Random Forest/cr_rf.txt")
    else if choice == "Naive-Bayes" then Some("models_stats/Naive Bayes/cr_nb.txt")
    else if choice == "Stochastic Gradient Descent" then Some("models_stats/Stochastic Gradient Descent/cr_sgd.txt")
    else None
  }

  /** Distinct choices use distinct model files. */
  lemma ModelPathInjective(a: string, b: string)
    requires ModelPath(a).Some? && ModelPath(a) == ModelPath(b)
    ensures a == b
  {
    var p := ModelPath(a).value;
    assert p[7] == ModelPath(b).value[7];
  }

  // ---------------------------------------------------------------------
  // The classification report in the sidebar

  const ReportHeader: string := "```\nClassification Report\n\n\n"
  const ReportFooter: string := "\n```"

  /** The lines marked as headings. */
  predicate IsHeading(line: string) {
    StartsWith(line, "precision") || StartsWith(line, "accuracy")
  }

  /** A report line with its two-character marker. */
  function MarkLine(line: string): (marked: string)
    ensures |marked| == |line| + 2 && marked[2..] == line
    ensures marked[..2] == (if IsHeading(line) then "# " else "  ")
  {
    (if IsHeading(line) then "# " else "  ") + line
  }

  /** The formatted lines, each followed by a newline. */
  function ReportLines(lines: seq<string>): string {
    if lines == [] then [] else MarkLine(lines[0]) + "\n" + ReportLines(lines[1..])
  }

  /** The markdown the sidebar shows for a report. */
  function FormattedReport(report: string): string {
    ReportHeader + ReportLines(Split(report, '\n')) + ReportFooter
  }

  lemma {:induction false} ReportLinesSnoc(lines: seq<string>, line: string)
    ensures ReportLines(lines + [line]) == ReportLines(lines) + MarkLine(line) + "\n"
  {
    if lines == [] {
      assert [] + [line] == [line];
    } else {
      assert (lines + [line])[1..] == lines[1..] + [line];
      ReportLinesSnoc(lines[1..], line);
    }
  }

  /** The report formatting loop of the sidebar. */
  method FormatReport(report: string) returns (formatted: string)
    ensures formatted == FormattedReport(report)
  {
    var lines := Split(report, '\n');
    formatted := "```\n";
    formatted := formatted + "Classification Report\n\n\n";
    assert formatted == ReportHeader + ReportLines(lines[..0]);
    for i := 0 to |lines|
      invariant formatted == ReportHeader + ReportLines(lines[..i])
    {
      var line := lines[i];
      var piece;
      if StartsWith(line, "precision") || StartsWith(line, "accuracy") {
        piece := "# " + line + "\n";
      } else {
        piece := "  " + line + "\n";
      }
      ReportStep(lines, i, formatted, piece);
      formatted := formatted + piece;
    }
    assert lines[..|lines|] == lines;
    formatted := formatted + "\n";
    formatted := formatted + "```";
  }

  /** One turn of the formatting loop extends the formatted lines by one. */
  lemma ReportStep(lines: seq<string>, i: int, formatted: string, piece: string)
    requires 0 <= i < |lines|
    requires formatted == ReportHeader + ReportLines(lines[..i])
    requires piece == (if IsHeading(lines[i]) then "# " else "  ") + lines[i] + "\n"
    ensures formatted + piece == ReportHeader + ReportLines(lines[..i + 1])
  {
    assert lines[..i + 1] == lines[..i] + [lines[i]];
    ReportLinesSnoc(lines[..i], lines[i]);
    assert piece == MarkLine(lines[i]) + "\n";
    ConcatAssoc(ReportHeader, ReportLines(lines[..i]), piece);
  }

  lemma ConcatAssoc<T>(a: seq<T>, b: seq<T>, c: seq<T>)
    ensures a + b + c == a + (b + c)
  {
  }

  /** The marked lines, without their newlines. */
  function MarkLines(lines: seq<string>): (marked: seq<string>)
    ensures |marked| == |lines|
    ensures forall k | 0 <= k < |lines| :: marked[k] == MarkLine(lines[k])
  {
    if lines == [] then [] else [MarkLine(lines[0])] + MarkLines(lines[1..])
  }

  /** Drops the two-character marker of every line. */
  function Unmark(marked: seq<string>): (lines: seq<string>)
    ensures |lines| == |marked|
  {
    if marked == [] then []
    else (if |marked[0]| >= 2 then [marked[0][2..]] else [marked[0]]) + Unmark(marked[1..])
  }

  lemma {:induction false} UnmarkMarkLines(lines: seq<string>)
    ensures Unmark(MarkLines(lines)) == lines
  {
    if lines != [] {
      UnmarkMarkLines(lines[1..]);
    }
  }

  lemma {:induction false} ReportLinesAsJoin(lines: seq<string>)
    requires |lines| >= 1
    ensures ReportLines(lines) == Join(MarkLines(lines), '\n') + "\n"
  {
    if |lines| > 1 {
      ReportLinesAsJoin(lines[1..]);
      assert MarkLines(lines)[1..] == MarkLines(lines[1..]);
    } else {
      assert lines[1..] == [];
    }
  }

  /**
   * Reads the report back out of the sidebar markdown: drops the header
   * and the footer, splits the body into lines and takes their markers off.
   */
  function UnformatReport(text: string): Option<string> {
    if |text| >= |ReportHeader| + |ReportFooter| + 1
       && text[..|ReportHeader|] == ReportHeader
       && text[|text| - |ReportFooter|..] == ReportFooter
       && text[|text| - |ReportFooter| - 1] == '\n'
    then
      var body := text[|ReportHeader|..|text| - |ReportFooter| - 1];
      var marked := Split(body, '\n');
      Some(Join(Unmark(marked), '\n'))
    else None
  }

  /**
   * The formatted report keeps every line of the report, once and in
   * order, behind its marker: taking the markers off gives the report back.
   */
  lemma ReportRoundTrip(report: string)
    ensures UnformatReport(FormattedReport(report)) == Some(report)
  {
    var lines := Split(report, '\n');
    var marked := MarkLines(lines);
    var joined := Join(marked, '\n');
    ReportLinesAsJoin(lines);
    var text := FormattedReport(report);
    assert text == ReportHeader + joined + "\n" + ReportFooter;
    assert text[..|ReportHeader|] == ReportHeader;
    assert text[|text| - |ReportFooter|..] == ReportFooter;
    assert text[|text| - |ReportFooter| - 1] == '\n';
    assert text[|ReportHeader|..|text| - |ReportFooter| - 1] == joined;
    forall k | 0 <= k < |marked|
      ensures '\n' !in marked[k]
    {
      assert marked[k] == MarkLine(lines[k]);
      assert '\n' !in marked[k][..2];
      assert marked[k] == marked[k][..2] + marked[k][2..];
    }
    SplitJoin(marked, '\n');
    UnmarkMarkLines(lines);
    JoinSplit(report, '\n');
  }

  /**
   * The sidebar for the chosen model: the report read from that model's
   * file (`read` stands for opening and reading it), formatted by the loop.
   * The select box offers only the three choices.
   */
  method SidebarReport(choice: string, read: string -> string) returns (formatted: string)
    requires choice in ModelChoices
    ensures ReportFile(choice).Some?
    ensures formatted == FormattedReport(read(ReportFile(choice).value))
    ensures UnformatReport(formatted) == Some(read(ReportFile(choice).value))
  {
    var report := read(ReportFile(choice).value);
    formatted := FormatReport(report);
    ReportRoundTrip(report);
  }
}
