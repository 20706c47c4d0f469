/**
 * The data preparation of `load_data/load_data.py` (`_load_data`): the
 * `www.` strip, the category codes, and the feature columns, added one by
 * one to a data frame whose remaining columns become the training matrix.
 *
 * The CSV file is the pair of columns `urls` and `types`; `process_tld` is
 * the function parameter `tld`, and `urlparse` the parameter `parse`.
 */
module LoadData {
  import opened Wrappers
  import opened Strings
  import opened UrlFeatures
  import opened App
  import IpRegex

  // ---------------------------------------------------------------------
  // The `www.` strip

  /** `re.sub('www.', '', s)` finds a match at `i`: `www` and one character other than a newline. */
  predicate WwwAt(s: string, i: int) {
    0 <= i && i + 4 <= |s| && s[i] == 'w' && s[i + 1] == 'w' && s[i + 2] == 'w' && s[i + 3] != '\n'
  }

  /**
   * `re.sub('www.', '', s)`: matches are removed left to right, the scan
   * resuming after each removed match.
   */
  function StripWww(s: string): (r: string)
    ensures |r| <= |s| && (|s| - |r|) % 4 == 0
    decreases |s|
  {
    if WwwAt(s, 0) then StripWww(s[4..])
    else if s == [] then []
    else [s[0]] + StripWww(s[1..])
  }

  /** A text without a match is left as it is. */
  lemma {:induction false} StripWwwNoMatch(s: string)
    requires forall i | 0 <= i < |s| :: !WwwAt(s, i)
    ensures StripWww(s) == s
    decreases |s|
  {
    if s != [] {
      assert !WwwAt(s, 0);
      forall i | 0 <= i < |s[1..]|
        ensures !WwwAt(s[1..], i)
      {
        assert !WwwAt(s, i + 1);
      }
      StripWwwNoMatch(s[1..]);
      assert [s[0]] + s[1..] == s;
    }
  }

  /** A text with a match loses at least one of them. */
  lemma {:induction false} StripWwwShrinks(s: string, i: int)
    requires WwwAt(s, i)
    ensures |StripWww(s)| < |s|
    decreases |s|
  {
    if !WwwAt(s, 0) {
      assert WwwAt(s[1..], i - 1);
      StripWwwShrinks(s[1..], i - 1);
    }
  }

  /** The strip changes a URL exactly when the URL has a match. */
  lemma StripWwwUnchanged(s: string)
    ensures StripWww(s) == s <==> forall i | 0 <= i < |s| :: !WwwAt(s, i)
  {
    if forall i | 0 <= i < |s| :: !WwwAt(s, i) {
      StripWwwNoMatch(s);
    } else {
      var i :| 0 <= i < |s| && WwwAt(s, i);
      StripWwwShrinks(s, i);
    }
  }

  /** In particular a URL without `www` is left as it is. */
  lemma StripWwwWithoutWww(s: string)
    requires !Contains(s, "www")
    ensures StripWww(s) == s
  {
    forall i | 0 <= i < |s|
      ensures !WwwAt(s, i)
    {
      if WwwAt(s, i) {
        assert s[i..i + 3] == "www";
        assert OccursAt("www", s, i);
        assert false;
      }
    }
    StripWwwNoMatch(s);
  }

  /** A prefix in which no match starts is kept, and the strip goes on after it. */
  lemma {:induction false} StripWwwKeepsPrefix(p: string, s: string)
    requires forall i | 0 <= i < |p| :: !WwwAt(p + s, i)
    ensures StripWww(p + s) == p + StripWww(s)
    decreases |p|
  {
    if p != [] {
      var w := p + s;
      assert !WwwAt(w, 0) && w != [];
      assert StripWww(w) == [w[0]] + StripWww(w[1..]);
      assert w[1..] == p[1..] + s && w[0] == p[0];
      forall i | 0 <= i < |p[1..]|
        ensures !WwwAt(p[1..] + s, i)
      {
        assert !WwwAt(w, i + 1);
      }
      StripWwwKeepsPrefix(p[1..], s);
      assert [p[0]] + (p[1..] + StripWww(s)) == p + StripWww(s);
    } else {
      assert p + s == s;
    }
  }

  /** `www.` goes from a host name: the scheme is kept, ... */
  lemma StripWwwExampleScheme()
    ensures StripWww("http://www.a.com") == "http://" + StripWww("www.a.com")
  {
    var p, s := "http://", "www.a.com";
    assert p + s == "http://www.a.com";
    forall i | 0 <= i < |p|
      ensures !WwwAt(p + s, i)
    {
    }
    StripWwwKeepsPrefix(p, s);
  }

  /** ... and `www.` is removed from the host. */
  lemma StripWwwExampleHost()
    ensures StripWww("www.a.com") == "a.com"
  {
    var s := "www.a.com";
    assert WwwAt(s, 0);
    assert s[4..] == "a.com";
    StripWwwNoMatch("a.com");
  }

  /** The `.` is a wildcard: `www-` goes as well. */
  lemma StripWwwWildcard()
    ensures StripWww("www-x") == "x"
  {
    assert WwwAt("www-x", 0);
    assert "www-x"[4..] == "x";
    StripWwwNoMatch("x");
  }

  /** Matches are found left to right: `wwwwww.x` loses its first four characters, not `www.`. */
  lemma StripWwwLeftmost()
    ensures StripWww("wwwwww.x") == "ww.x"
  {
    assert WwwAt("wwwwww.x", 0);
    assert "wwwwww.x"[4..] == "ww.x";
    StripWwwNoMatch("ww.x");
  }

  /** The URL length of the training data is taken after the strip; inference measures the URL as typed. */
  lemma TrainingLengthAfterStrip()
    ensures |StripWww("http://www.a.com")| < |"http://www.a.com"|
  {
    assert WwwAt("http://www.a.com", 7);
    StripWwwShrinks("http://www.a.com", 7);
  }

  // ---------------------------------------------------------------------
  // The category codes

  /** The labels of the `type` column that the `rem` map knows. */
  const CategoryNames: seq<string> := ["benign", "defacement", "phishing", "malware"]

  /** The code the `rem` map gives a label of the `Category` column. */
  function CategoryCode(name: string): (code: Option<int>)
    ensures code.Some? <==> name in CategoryNames
  {
    if name == "benign" then Some(0)
    else if name == "defacement" then Some(1)
    else if name == "phishing" then Some(2)
    else if name == "malware" then Some(3)
    else None
  }

  /** The message `inference` gives a label's code names that label: the map is the inverse of `inference`. */
  lemma CategoryCodeNamedByVerdict(name: string)
    requires CategoryCode(name).Some?
    ensures Verdict(CategoryCode(name).value).Some?
    ensures StartsWith(Verdict(CategoryCode(name).value).value, "This is a " + name + " URL ")
  {
    var mark := if name == "benign" then "\U{2705}" else if name == "defacement" then "\U{274C}"
      else if name == "phishing" then "\U{1F3A3}" else "\U{1F9A0}";
    assert Verdict(CategoryCode(name).value).value == Message(name, mark);
    StartsWithConcat("This is a " + name + " URL ", mark);
  }

  /** Every code `inference` has a message for is the code of some label. */
  lemma VerdictHasCategory(code: int)
    requires Verdict(code).Some?
    ensures exists name | name in CategoryNames :: CategoryCode(name) == Some(code)
  {
    var name := CategoryNames[code];
    assert CategoryCode(name) == Some(code);
  }

  /** Different labels get different codes. */
  lemma CategoryCodeInjective(a: string, b: string)
    requires CategoryCode(a).Some? && CategoryCode(a) == CategoryCode(b)
    ensures a == b
  {
  }

  /** The token list of the training columns. */
  const TrainingTokens: seq<string> := ["@", "?", "-", "=", ".", "#", "%", "+", "$", "!", "*", ",", "//"]

  /** The training columns count the same tokens, in the same order, as `get_features`. */
  lemma TrainingTokensAreTokens()
    ensures TrainingTokens == Tokens
  {
  }

  /** The thirteen tokens are distinct and non-empty. */
  lemma TokensDistinct()
    ensures forall k | 0 <= k < |Tokens| :: Tokens[k] != []
    ensures forall i, j | 0 <= i < j < |Tokens| :: Tokens[i] != Tokens[j]
  {
    SingleCharTokensDistinct();
    TokensSplit();
  }

  // ---------------------------------------------------------------------
  // The data frame

  /** A cell of the data frame: an integer, a text, or a missing value. */
  datatype Cell = IntCell(number: int) | TextCell(text: string) | NoneCell

  /** `df.replace(rem)` on one cell of the `Category` column: a known label becomes its code. */
  function ReplaceCategory(c: Cell): (d: Cell)
    ensures d.IntCell? <==> c.IntCell? || (c.TextCell? && c.text in CategoryNames)
  {
    if c.TextCell? && CategoryCode(c.text).Some? then IntCell(CategoryCode(c.text).value) else c
  }

  /** `df.replace(rem)` on the `Category` column. */
  function Replaced(column: seq<Cell>): (replaced: seq<Cell>)
    ensures |replaced| == |column|
    ensures forall r | 0 <= r < |column| :: replaced[r] == ReplaceCategory(column[r])
  {
    seq(|column|, r requires 0 <= r < |column| => ReplaceCategory(column[r]))
  }

  /**
   * A training label that is one of the four categories becomes a code, and
   * `inference` reports that code with a message naming the label; any
   * other label stays text.
   */
  lemma ReplacedLabel(types: seq<string>, r: int)
    requires 0 <= r < |types|
    ensures |Replaced(TextColumn(types))| == |types|
    ensures types[r] in CategoryNames ==>
      (Replaced(TextColumn(types))[r].IntCell? &&
       Verdict(Replaced(TextColumn(types))[r].number).Some? &&
       StartsWith(Verdict(Replaced(TextColumn(types))[r].number).value, "This is a " + types[r] + " URL "))
    ensures types[r] !in CategoryNames ==> Replaced(TextColumn(types))[r] == TextCell(types[r])
  {
    if types[r] in CategoryNames {
      CategoryCodeNamedByVerdict(types[r]);
    }
  }

  /** The cells of a column of texts. */
  function TextColumn(xs: seq<string>): (cells: seq<Cell>)
    ensures |cells| == |xs|
  {
    seq(|xs|, r requires 0 <= r < |xs| => TextCell(xs[r]))
  }

  /** The first position of `x` in `s`. */
  function IndexOf(s: seq<string>, x: string): (i: nat)
    requires x in s
    ensures i < |s| && s[i] == x
    ensures forall j | 0 <= j < i :: s[j] != x
  {
    if s[0] == x then 0 else 1 + IndexOf(s[1..], x)
  }

  /** The entries of `xs` whose column name is not one of `names`. */
  function Kept<T>(cols: seq<string>, xs: seq<T>, names: seq<string>): (kept: seq<T>)
    requires |cols| == |xs|
    ensures |kept| <= |xs|
  {
    if cols == [] then []
    else Kept(cols[..|cols| - 1], xs[..|xs| - 1], names) + (if cols[|cols| - 1] in names then [] else [xs[|xs| - 1]])
  }

  /** A data frame: named columns in order, each holding one cell per row. */
  class Frame {
    var columns: seq<string>
    var cells: seq<seq<Cell>>
    var rows: nat

    ghost predicate Valid()
      reads this
    {
      |cells| == |columns| && forall k | 0 <= k < |cells| :: |cells[k]| == rows
    }

    /** `pd.read_csv` of a file with the columns `url` and `type`. */
    constructor (urls: seq<string>, types: seq<string>)
      requires |urls| == |types|
      ensures Valid() && rows == |urls|
      ensures columns == ["url", "type"] && cells == [TextColumn(urls), TextColumn(types)]
    {
      columns := ["url", "type"];
      cells := [TextColumn(urls), TextColumn(types)];
      rows := |urls|;
    }

    /** A frame holding the given columns. */
    constructor FromColumns(columns: seq<string>, cells: seq<seq<Cell>>, rows: nat)
      requires |cells| == |columns| && forall k | 0 <= k < |cells| :: |cells[k]| == rows
      ensures Valid()
      ensures this.columns == columns && this.cells == cells && this.rows == rows
    {
      this.columns := columns;
      this.cells := cells;
      this.rows := rows;
    }

    /** `df[name]`. */
    function Column(name: string): (col: seq<Cell>)
      reads this
      requires Valid() && name in columns
      ensures |col| == rows
      ensures exists k | 0 <= k < |columns| ::
        columns[k] == name && col == cells[k] && forall j | 0 <= j < k :: columns[j] != name
    {
      cells[IndexOf(columns, name)]
    }

    /** `df[name] = values`: a known column is overwritten in place, a new one goes last. */
    method SetColumn(name: string, values: seq<Cell>)
      requires Valid() && |values| == rows
      modifies this
      ensures Valid() && rows == old(rows)
      ensures name in old(columns) ==>
        columns == old(columns) && cells == old(cells)[IndexOf(old(columns), name) := values]
      ensures name !in old(columns) ==> columns == old(columns) + [name] && cells == old(cells) + [values]
    {
      if name in columns {
        cells := cells[IndexOf(columns, name) := values];
      } else {
        columns := columns + [name];
        cells := cells + [values];
      }
    }

    /** `df.replace({name: rem})`: the known labels of column `name` become their codes. */
    method ReplaceCategories(name: string)
      requires Valid()
      modifies this
      ensures Valid() && rows == old(rows) && columns == old(columns)
      ensures name in columns ==> cells == old(cells)[IndexOf(columns, name) := Replaced(old(cells)[IndexOf(columns, name)])]
      ensures name !in columns ==> cells == old(cells)
    {
      if name in columns {
        var i := IndexOf(columns, name);
        cells := cells[i := Replaced(cells[i])];
      }
    }

    /** `df.drop(names, axis=1)`: a new frame without the named columns; every name must be a column. */
    method Drop(names: seq<string>) returns (x: Frame)
      requires Valid()
      requires forall n | n in names :: n in columns
      ensures fresh(x) && x.Valid() && x.rows == rows
      ensures x.columns == Kept(columns, columns, names) && x.cells == Kept(columns, cells, names)
    {
      var keptColumns: seq<string> := [];
      var keptCells: seq<seq<Cell>> := [];
      for k := 0 to |columns|
        invariant keptColumns == Kept(columns[..k], columns[..k], names)
        invariant keptCells == Kept(columns[..k], cells[..k], names)
        invariant |keptColumns| == |keptCells|
        invariant forall j | 0 <= j < |keptCells| :: |keptCells[j]| == rows
      {
        assert columns[..k + 1][..k] == columns[..k];
        assert cells[..k + 1][..k] == cells[..k];
        if columns[k] !in names {
          keptColumns := keptColumns + [columns[k]];
          keptCells := keptCells + [cells[k]];
        }
      }
      assert columns[..|columns|] == columns && cells[..|cells|] == cells;
      x := new Frame.FromColumns(keptColumns, keptCells, rows);
    }
  }

  /** Dropping keeps each entry whose column is not named. */
  lemma {:induction false} KeptAppend<T>(c1: seq<string>, x1: seq<T>, c2: seq<string>, x2: seq<T>, names: seq<string>)
    requires |c1| == |x1| && |c2| == |x2|
    ensures Kept(c1 + c2, x1 + x2, names) == Kept(c1, x1, names) + Kept(c2, x2, names)
    decreases |c2|
  {
    if c2 == [] {
      assert c1 + c2 == c1 && x1 + x2 == x1;
    } else {
      var n := |c2| - 1;
      assert (c1 + c2)[..|c1 + c2| - 1] == c1 + c2[..n];
      assert (x1 + x2)[..|x1 + x2| - 1] == x1 + x2[..n];
      KeptAppend(c1, x1, c2[..n], x2[..n], names);
    }
  }

  /** No entry goes when no column is named. */
  lemma {:induction false} KeptNone<T>(cols: seq<string>, xs: seq<T>, names: seq<string>)
    requires |cols| == |xs|
    requires forall k | 0 <= k < |cols| :: cols[k] !in names
    ensures Kept(cols, xs, names) == xs
  {
    if cols != [] {
      KeptNone(cols[..|cols| - 1], xs[..|xs| - 1], names);
      assert xs[..|xs| - 1] + [xs[|xs| - 1]] == xs;
    }
  }

  // ---------------------------------------------------------------------
  // The feature columns

  /** The `url` column after the strip. */
  function StripAll(urls: seq<string>): (us: seq<string>)
    ensures |us| == |urls|
    ensures forall r | 0 <= r < |urls| :: us[r] == StripWww(urls[r]) && |us[r]| <= |urls[r]|
  {
    seq(|urls|, r requires 0 <= r < |urls| => StripWww(urls[r]))
  }

  /** Every URL has a host name `abnormal_url` can search for. */
  predicate AllSupported(us: seq<string>, parse: string -> UrlParts) {
    forall r | 0 <= r < |us| :: HostnameSupported(parse(us[r]).hostname)
  }

  /** `df['url_len']`. */
  function LengthColumn(us: seq<string>): (col: seq<Cell>)
    ensures |col| == |us|
    ensures forall r | 0 <= r < |us| :: col[r] == IntCell(|us[r]|)
  {
    seq(|us|, r requires 0 <= r < |us| => IntCell(|us[r]|))
  }

  /** `df[t]`: the count of `t` in each URL. */
  function CountColumn(us: seq<string>, t: string): (col: seq<Cell>)
    requires t != []
    ensures |col| == |us|
    ensures forall r | 0 <= r < |us| :: col[r] == IntCell(Count(us[r], t))
  {
    seq(|us|, r requires 0 <= r < |us| => IntCell(Count(us[r], t)))
  }

  /** The thirteen token columns. */
  function TokenColumns(us: seq<string>): (cols: seq<seq<Cell>>)
    ensures |cols| == |Tokens|
    ensures forall k | 0 <= k < |Tokens| :: Tokens[k] != [] && cols[k] == CountColumn(us, Tokens[k])
  {
    TokensDistinct();
    seq(|Tokens|, k requires 0 <= k < |Tokens| => CountColumn(us, Tokens[k]))
  }

  /** `df['abnormal_url']`. */
  function AbnormalColumn(us: seq<string>, parse: string -> UrlParts): (col: seq<Cell>)
    requires AllSupported(us, parse)
    ensures |col| == |us|
    ensures forall r | 0 <= r < |us| :: col[r] == IntCell(0) || col[r] == IntCell(1)
    ensures forall r | 0 <= r < |us| ::
      col[r] == IntCell(1) <==> PatternSearch(Str(parse(us[r]).hostname), us[r])
  {
    seq(|us|, r requires 0 <= r < |us| => IntCell(AbnormalUrl(us[r], parse(us[r]))))
  }

  /** `df['https']`. */
  function HttpsColumn(us: seq<string>, parse: string -> UrlParts): (col: seq<Cell>)
    ensures |col| == |us|
    ensures forall r | 0 <= r < |us| :: col[r] == IntCell(0) || col[r] == IntCell(1)
    ensures forall r | 0 <= r < |us| :: col[r] == IntCell(1) <==> parse(us[r]).scheme == "https"
  {
    seq(|us|, r requires 0 <= r < |us| => IntCell(HttpSecure(parse(us[r]))))
  }

  /** `df['digits']`. */
  function DigitsOf(us: seq<string>): (col: seq<Cell>)
    ensures |col| == |us|
    ensures forall r | 0 <= r < |us| :: col[r] == IntCell(CountIf(us[r], IsNumeric))
  {
    seq(|us|, r requires 0 <= r < |us| => IntCell(CountIf(us[r], IsNumeric)))
  }

  /** `df['letters']`. */
  function LettersOf(us: seq<string>): (col: seq<Cell>)
    ensures |col| == |us|
    ensures forall r | 0 <= r < |us| :: col[r] == IntCell(CountIf(us[r], IsAlpha))
  {
    seq(|us|, r requires 0 <= r < |us| => IntCell(CountIf(us[r], IsAlpha)))
  }

  /** `df['shortening_service']`. */
  function ShorteningColumn(us: seq<string>): (col: seq<Cell>)
    ensures |col| == |us|
    ensures forall r | 0 <= r < |us| :: col[r] == IntCell(0) || col[r] == IntCell(1)
    ensures forall r | 0 <= r < |us| :: col[r] == IntCell(1) <==> HasShortener(us[r])
  {
    seq(|us|, r requires 0 <= r < |us| => IntCell(ShorteningService(us[r])))
  }

  /** `df['ip_address']`. */
  function IpColumn(us: seq<string>): (col: seq<Cell>)
    ensures |col| == |us|
    ensures forall r | 0 <= r < |us| :: col[r] == IntCell(0) || col[r] == IntCell(1)
    ensures forall r | 0 <= r < |us| :: col[r] == IntCell(1) <==> IpRegex.SearchIp(us[r])
  {
    seq(|us|, r requires 0 <= r < |us| => IntCell(IpAddress(us[r])))
  }

  /** The six URL feature columns, in the order they are added. */
  function FeatureColumns(us: seq<string>, parse: string -> UrlParts): (cols: seq<seq<Cell>>)
    requires AllSupported(us, parse)
    ensures |cols| == |FeatureNames|
    ensures forall k | 0 <= k < |cols| :: |cols[k]| == |us|
  {
    [AbnormalColumn(us, parse), HttpsColumn(us, parse), DigitsOf(us), LettersOf(us), ShorteningColumn(us), IpColumn(us)]
  }

  /** The training matrix, column by column, as `_load_data` leaves it after the drop. */
  function TrainingColumns(us: seq<string>, parse: string -> UrlParts): (cols: seq<seq<Cell>>)
    requires AllSupported(us, parse)
    ensures |cols| == |FeatColumns|
    ensures forall k | 0 <= k < |cols| :: |cols[k]| == |us|
  {
    [LengthColumn(us)] + TokenColumns(us) + FeatureColumns(us, parse)
  }

  /**
   * The training matrix holds, in row `r` under column `k`, the entry `k`
   * of the row `get_features` builds for the stripped URL `r`: training and
   * inference order the features alike.
   */
  lemma TrainingRowIsFeatureVector(us: seq<string>, parse: string -> UrlParts, r: int, k: int)
    requires AllSupported(us, parse) && 0 <= r < |us| && 0 <= k < |FeatColumns|
    ensures |TrainingColumns(us, parse)| == |FeatColumns| && |TrainingColumns(us, parse)[k]| == |us|
    ensures TrainingColumns(us, parse)[k][r] == IntCell(FeatureVector(us[r], parse(us[r]))[k])
  {
    var u := us[r];
    var columns := TrainingColumns(us, parse);
    ThreeParts([LengthColumn(us)], TokenColumns(us), FeatureColumns(us, parse));
    if k == 0 {
      assert columns[0] == LengthColumn(us);
      FeatureVectorHead(u, parse(u));
    } else if k < 14 {
      assert columns[k] == TokenColumns(us)[k - 1];
      FeatureVectorCounts(u, parse(u));
      assert FeatureVector(u, parse(u))[k] == FeatureVector(u, parse(u))[1..14][k - 1];
    } else {
      assert columns[k] == FeatureColumns(us, parse)[k - 14];
      FeatureVectorTail(u, parse(u));
      assert FeatureVector(u, parse(u))[k] == FeatureVector(u, parse(u))[14..][k - 14];
    }
  }

  /** The columns `_load_data` drops before training. */
  const DroppedColumns: seq<string> := ["url", "type", "Category", "domain"]

  /** The columns of the frame before the drop, ahead of the token and feature columns. */
  const LeadingColumns: seq<string> := ["url", "type", "Category", "url_len", "domain"]

  /** Of the leading columns only `url_len` stays, and every later column stays. */
  lemma DropLayout<T>(a: T, b: T, c: T, d: T, e: T, rest: seq<T>)
    requires |rest| == |Tokens + FeatureNames|
    ensures Kept(LeadingColumns + (Tokens + FeatureNames), [a, b, c, d, e] + rest, DroppedColumns) == [d] + rest
  {
    KeptAppend(LeadingColumns, [a, b, c, d, e], Tokens + FeatureNames, rest, DroppedColumns);
    KeptLeading(a, b, c, d, e);
    LaterColumnsKept();
    KeptNone(Tokens + FeatureNames, rest, DroppedColumns);
  }

  lemma LaterColumnsKept()
    ensures forall k | 0 <= k < |Tokens + FeatureNames| :: (Tokens + FeatureNames)[k] !in DroppedColumns
  {
    assert Tokens + FeatureNames == FeatColumns[1..];
  }

  lemma KeptLeading<T>(a: T, b: T, c: T, d: T, e: T)
    ensures Kept(LeadingColumns, [a, b, c, d, e], DroppedColumns) == [d]
  {
    var lead := [a, b, c, d, e];
    assert Kept(["url"], [a], DroppedColumns) == [] by {
      assert ["url"][..0] == [] && [a][..0] == [];
    }
    assert Kept(["url", "type"], [a, b], DroppedColumns) == [] by {
      assert ["url", "type"][..1] == ["url"] && [a, b][..1] == [a];
    }
    assert Kept(["url", "type", "Category"], [a, b, c], DroppedColumns) == [] by {
      assert ["url", "type", "Category"][..2] == ["url", "type"] && [a, b, c][..2] == [a, b];
    }
    assert Kept(["url", "type", "Category", "url_len"], [a, b, c, d], DroppedColumns) == [d] by {
      assert ["url", "type", "Category", "url_len"][..3] == ["url", "type", "Category"] && [a, b, c, d][..3] == [a, b, c];
    }
    assert LeadingColumns[..4] == ["url", "type", "Category", "url_len"] && lead[..4] == [a, b, c, d];
  }

  /** The domain of a URL as `process_tld` finds it, or a missing value. */
  function DomainCell(domain: Option<string>): Cell {
    if domain.Some? then TextCell(domain.value) else NoneCell
  }

  /**
   * `_load_data` without the file reading, the scaling and the split: the
   * URLs and labels of the data set come in as `urls` and `types`; it returns
   * the feature frame `x` and the label column `y`.
   */
  method LoadData(urls: seq<string>, types: seq<string>, parse: string -> UrlParts, tld: string -> Option<string>)
    returns (x: Frame, y: seq<Cell>)
    requires |urls| == |types|
    requires AllSupported(StripAll(urls), parse)
    ensures x.Valid() && x.rows == |urls|
    ensures x.columns == FeatColumns
    ensures x.cells == TrainingColumns(StripAll(urls), parse)
    ensures y == Replaced(TextColumn(types))
  {
    var df, us := ReadFrame(urls, types, tld);
    AddTokenColumns(df, us);
    AddFeatureColumns(df, us, parse);
    ghost var lead := df.cells[..5];
    assert df.columns == LeadingColumns + Tokens + FeatureNames;
    assert df.cells == lead + TokenColumns(us) + FeatureColumns(us, parse);
    ConcatAssoc(LeadingColumns, Tokens, FeatureNames);
    ConcatAssoc(lead, TokenColumns(us), FeatureColumns(us, parse));
    x, y := SplitFrame(df);
  }

  /**
   * The frame before the token columns: the stripped `url`, the `type`
   * labels, their codes in `Category`, `url_len` and `domain`; `us` holds the
   * stripped URLs.
   */
  method ReadFrame(urls: seq<string>, types: seq<string>, tld: string -> Option<string>)
    returns (df: Frame, us: seq<string>)
    requires |urls| == |types|
    ensures fresh(df) && df.Valid() && df.rows == |urls| && us == StripAll(urls)
    ensures df.columns == LeadingColumns
    ensures df.cells == [TextColumn(us), TextColumn(types), Replaced(TextColumn(types)), LengthColumn(us),
                         seq(|us|, r requires 0 <= r < |us| => DomainCell(tld(us[r])))]
  {
    df := new Frame(urls, types);
    us := StripAll(urls);
    df.SetColumn("url", TextColumn(us));
    assert df.columns == ["url", "type"] && df.cells == [TextColumn(us), TextColumn(types)];
    df.SetColumn("Category", df.Column("type"));
    assert df.cells == [TextColumn(us), TextColumn(types), TextColumn(types)];
    df.ReplaceCategories("Category");
    ghost var labels := Replaced(TextColumn(types));
    assert df.columns == ["url", "type", "Category"] && df.cells == [TextColumn(us), TextColumn(types), labels];
    df.SetColumn("url_len", LengthColumn(us));
    assert df.columns == ["url", "type", "Category", "url_len"];
    assert df.cells == [TextColumn(us), TextColumn(types), labels, LengthColumn(us)];
    var domains := seq(|us|, r requires 0 <= r < |us| => DomainCell(tld(us[r])));
    df.SetColumn("domain", domains);
  }

  /** `x = df.drop(['url', 'type', 'Category', 'domain'], axis=1)` and `y = df['Category']`. */
  method SplitFrame(df: Frame) returns (x: Frame, y: seq<Cell>)
    requires df.Valid() && df.columns == LeadingColumns + (Tokens + FeatureNames)
    ensures x.Valid() && x.rows == df.rows
    ensures x.columns == FeatColumns && x.cells == [df.cells[3]] + df.cells[5..]
    ensures y == df.cells[2]
  {
    ghost var cells := df.cells;
    assert cells == [cells[0], cells[1], cells[2], cells[3], cells[4]] + cells[5..];
    x := df.Drop(DroppedColumns);
    DropLayout(cells[0], cells[1], cells[2], cells[3], cells[4], cells[5..]);
    DropLayout("url", "type", "Category", "url_len", "domain", Tokens + FeatureNames);
    FeatColumnsLayout();
    assert df.columns[0] == "url" && df.columns[1] == "type" && df.columns[2] == "Category";
    y := df.Column("Category");
  }

  /** `for feature in features: df[feature] = df['url'].apply(lambda i: i.count(feature))`. */
  method AddTokenColumns(df: Frame, us: seq<string>)
    requires df.Valid() && df.rows == |us|
    requires forall k | 0 <= k < |Tokens| :: Tokens[k] !in df.columns
    modifies df
    ensures df.Valid() && df.rows == old(df.rows)
    ensures df.columns == old(df.columns) + Tokens && df.cells == old(df.cells) + TokenColumns(us)
  {
    TokensDistinct();
    TrainingTokensAreTokens();
    var features := TrainingTokens;
    for k := 0 to |features|
      invariant df.Valid() && df.rows == |us|
      invariant df.columns == old(df.columns) + Tokens[..k]
      invariant df.cells == old(df.cells) + TokenColumns(us)[..k]
    {
      assert features[k] !in Tokens[..k] by {
        forall j | 0 <= j < k
          ensures Tokens[..k][j] != Tokens[k]
        {
          assert Tokens[..k][j] == Tokens[j];
        }
      }
      df.SetColumn(features[k], CountColumn(us, features[k]));
      assert Tokens[..k + 1] == Tokens[..k] + [Tokens[k]];
      assert TokenColumns(us)[..k + 1] == TokenColumns(us)[..k] + [CountColumn(us, Tokens[k])];
    }
    assert Tokens[..|Tokens|] == Tokens;
    assert TokenColumns(us)[..|Tokens|] == TokenColumns(us);
  }

  /** The six `apply` assignments of `abnormal_url` to `ip_address`. */
  method AddFeatureColumns(df: Frame, us: seq<string>, parse: string -> UrlParts)
    requires df.Valid() && df.rows == |us| && AllSupported(us, parse)
    requires forall j | 0 <= j < |FeatureNames| :: FeatureNames[j] !in df.columns
    modifies df
    ensures df.Valid() && df.rows == old(df.rows)
    ensures df.columns == old(df.columns) + FeatureNames
    ensures df.cells == old(df.cells) + FeatureColumns(us, parse)
  {
    var digits := DigitsColumn(us);
    var letters := LettersColumn(us);
    SetColumns(df, FeatureNames, [AbnormalColumn(us, parse), HttpsColumn(us, parse), digits, letters,
                                  ShorteningColumn(us), IpColumn(us)]);
  }

  /** `df[names[k]] = values[k]` for each `k` in turn, every name new to the frame. */
  method SetColumns(df: Frame, names: seq<string>, values: seq<seq<Cell>>)
    requires df.Valid() && |names| == |values|
    requires forall k | 0 <= k < |values| :: |values[k]| == df.rows
    requires forall k | 0 <= k < |names| :: names[k] !in df.columns
    requires forall i, j | 0 <= i < j < |names| :: names[i] != names[j]
    modifies df
    ensures df.Valid() && df.rows == old(df.rows)
    ensures df.columns == old(df.columns) + names && df.cells == old(df.cells) + values
  {
    for k := 0 to |names|
      invariant df.Valid() && df.rows == old(df.rows)
      invariant df.columns == old(df.columns) + names[..k] && df.cells == old(df.cells) + values[..k]
    {
      assert names[k] !in names[..k] by {
        forall j | 0 <= j < k
          ensures names[..k][j] != names[k]
        {
          assert names[..k][j] == names[j];
        }
      }
      df.SetColumn(names[k], values[k]);
      assert names[..k + 1] == names[..k] + [names[k]];
      assert values[..k + 1] == values[..k] + [values[k]];
    }
    assert names[..|names|] == names && values[..|values|] == values;
  }

  /** `df['digits'] = df['url'].apply(lambda i: digit_count(i))`. */
  method DigitsColumn(us: seq<string>) returns (column: seq<Cell>)
    ensures column == DigitsOf(us)
  {
    column := [];
    for r := 0 to |us|
      invariant column == seq(r, q requires 0 <= q < r => IntCell(CountIf(us[q], IsNumeric)))
    {
      var digits := DigitCount(us[r]);
      column := column + [IntCell(digits)];
    }
  }

  /** `df['letters'] = df['url'].apply(lambda i: letter_count(i))`. */
  method LettersColumn(us: seq<string>) returns (column: seq<Cell>)
    ensures column == LettersOf(us)
  {
    column := [];
    for r := 0 to |us|
      invariant column == seq(r, q requires 0 <= q < r => IntCell(CountIf(us[q], IsAlpha)))
    {
      var letters := LetterCount(us[r]);
      column := column + [IntCell(letters)];
    }
  }
}
