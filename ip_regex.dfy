/**
 * The regular expression that `ip_address` searches for, written as
 * predicates on a range of the searched text: `P(s, i, j)` holds exactly
 * when `s[i..j]` is in the language of the piece `P` of the pattern, and
 * `IpPatternAt` is the whole alternation. "`re.search` finds a match" is
 * then "some range satisfies `IpPatternAt`" (`SearchIp`).
 *
 * The alternation has five alternatives, not six: the one after the
 * hexadecimal group is not preceded by `|`, so the hexadecimal quad and the
 * eight hextets form one concatenated alternative; and the alternative
 * commented "with port" repeats the first one character for character.
 */
module IpRegex {

  /** `\d` and `[0-9]`, over ASCII. */
  predicate IsDigit(c: char) {
    '0' <= c <= '9'
  }

  /** `[0-9a-fA-F]` and `[a-fA-F0-9]`. */
  predicate IsHexDigit(c: char) {
    IsDigit(c) || 'a' <= c <= 'f' || 'A' <= c <= 'F'
  }

  /** `[01]`. */
  predicate IsBinary(c: char) {
    c == '0' || c == '1'
  }

  predicate InRange(s: string, i: int, j: int) {
    0 <= i <= j <= |s|
  }

  /** Every character of `s[i..j]` is a decimal digit. */
  predicate DigitsIn(s: string, i: int, j: int) {
    InRange(s, i, j) && forall k | i <= k < j :: IsDigit(s[k])
  }

  /** Every character of `s[i..j]` is a hexadecimal digit. */
  predicate HexIn(s: string, i: int, j: int) {
    InRange(s, i, j) && forall k | i <= k < j :: IsHexDigit(s[k])
  }

  /** `2[0-4]\d`. */
  predicate TwoHundreds(s: string, i: int, j: int) {
    InRange(s, i, j) && j - i == 3 && s[i] == '2' && '0' <= s[i + 1] <= '4' && IsDigit(s[i + 2])
  }

  /** `25[0-5]`. */
  predicate TwoFifties(s: string, i: int, j: int) {
    InRange(s, i, j) && j - i == 3 && s[i] == '2' && s[i + 1] == '5' && '0' <= s[i + 2] <= '5'
  }

  /** The three octet patterns of the regular expression. */
  datatype OctetForm = Loose | Strict | Hex

  /**
   * - `Loose`: `[01]?\d\d?|2[0-4]\d|25[0-5]`, the octet of the first two
   *   alternatives; `[01]?\d\d?` spells out to `\d`, `\d\d`, `[01]\d`, `[01]\d\d`.
   * - `Strict`: `\d|[01]?\d\d|2[0-4]\d|25[0-5]`, the octet of the last
   *   alternative (its fourth octet lists the same branches in the opposite
   *   order, which does not change the language); `[01]?\d\d` spells out to
   *   `\d\d` and `[01]\d\d`.
   * - `Hex`: `0x[0-9a-fA-F]{1,2}`.
   */
  predicate Octet(form: OctetForm, s: string, i: int, j: int) {
    InRange(s, i, j) &&
    match form
    case Loose =>
      || (j - i == 1 && IsDigit(s[i]))
      || (j - i == 2 && IsDigit(s[i]) && IsDigit(s[i + 1]))
      || (j - i == 2 && IsBinary(s[i]) && IsDigit(s[i + 1]))
      || (j - i == 3 && IsBinary(s[i]) && IsDigit(s[i + 1]) && IsDigit(s[i + 2]))
      || TwoHundreds(s, i, j)
      || TwoFifties(s, i, j)
    case Strict =>
      || (j - i == 1 && IsDigit(s[i]))
      || (j - i == 2 && IsDigit(s[i]) && IsDigit(s[i + 1]))
      || (j - i == 3 && IsBinary(s[i]) && IsDigit(s[i + 1]) && IsDigit(s[i + 2]))
      || TwoHundreds(s, i, j)
      || TwoFifties(s, i, j)
    case Hex =>
      3 <= j - i <= 4 && s[i] == '0' && s[i + 1] == 'x' && HexIn(s, i + 2, j)
  }

  /** `O\.O\.O\.O` for the octet pattern `form` on `s[i..j]`, with its dots at `p < q < r`. */
  predicate QuadAt(form: OctetForm, s: string, i: int, p: int, q: int, r: int, j: int) {
    && InRange(s, i, j) && i <= p < q < r < j
    && s[p] == '.' && s[q] == '.' && s[r] == '.'
    && Octet(form, s, i, p) && Octet(form, s, p + 1, q)
    && Octet(form, s, q + 1, r) && Octet(form, s, r + 1, j)
  }

  /** `O\.O\.O\.O` for the octet pattern `form`. */
  predicate Quad(form: OctetForm, s: string, i: int, j: int) {
    exists p, q, r | i <= p < q < r < j :: QuadAt(form, s, i, p, q, r, j)
  }

  /** Alternatives 1 and 2: `O\.O\.O\.O\/` with the loose octet. */
  predicate DecimalSlash(s: string, i: int, j: int) {
    InRange(s, i, j) && i < j && Quad(Loose, s, i, j - 1) && s[j - 1] == '/'
  }

  /** `[a-fA-F0-9]{1,4}`. */
  predicate Hextet(s: string, i: int, j: int) {
    1 <= j - i <= 4 && HexIn(s, i, j)
  }

  /** `(?:[a-fA-F0-9]{1,4}:){n}`. */
  predicate HextetGroups(s: string, i: int, j: int, n: nat)
    decreases n
  {
    InRange(s, i, j) &&
    if n == 0 then i == j
    else exists k | i < k < j :: GroupAt(s, i, k, j, n)
  }

  /** The first of `n` hextet groups ends with the `:` at `k`. */
  predicate GroupAt(s: string, i: int, k: int, j: int, n: nat)
    requires n > 0
    decreases n, 0
  {
    && InRange(s, i, j) && i < k < j && k <= i + 4
    && Hextet(s, i, k) && s[k] == ':' && HextetGroups(s, k + 1, j, n - 1)
  }

  /**
   * Alternative 3, the hexadecimal group and the hextet group run together:
   * `(0xH\.0xH\.0xH\.0xH\/)(?:[a-fA-F0-9]{1,4}:){7}[a-fA-F0-9]{1,4}` with
   * `H` = `[0-9a-fA-F]{1,2}`; the slash is at `a`, the last hextet starts at `m`.
   */
  predicate HexSlashHextets(s: string, i: int, j: int) {
    exists a, m | i <= a < m <= j :: HexAt(s, i, a, m, j)
  }

  predicate HexAt(s: string, i: int, a: int, m: int, j: int) {
    && InRange(s, i, j) && i <= a && a + 1 <= m <= j
    && Quad(Hex, s, i, a) && s[a] == '/'
    && HextetGroups(s, a + 1, m, 7) && Hextet(s, m, j)
  }

  /** `[0-9]+`. */
  predicate DigitRun(s: string, i: int, j: int) {
    i < j && DigitsIn(s, i, j)
  }

  /** Alternative 4: `[0-9]+(?:\.[0-9]+){3}:[0-9]+`. */
  predicate DecimalPort(s: string, i: int, j: int) {
    exists p, q, r, t | i <= p < q < r < t < j :: PortAt(s, i, p, q, r, t, j)
  }

  /** Dots at `p < q < r`, the colon at `t`. */
  predicate PortAt(s: string, i: int, p: int, q: int, r: int, t: int, j: int) {
    && InRange(s, i, j) && i <= p < q < r < t < j
    && DigitRun(s, i, p) && s[p] == '.'
    && DigitRun(s, p + 1, q) && s[q] == '.'
    && DigitRun(s, q + 1, r) && s[r] == '.'
    && DigitRun(s, r + 1, t) && s[t] == ':'
    && DigitRun(s, t + 1, j)
  }

  /**
   * Alternative 5: `(?:O\.){3}O(?:\/\d{1,2})?` with the strict octet, with
   * or without the `/` (at `e`) and the one or two digits after it.
   */
  predicate DecimalPrefix(s: string, i: int, j: int) {
    || Quad(Strict, s, i, j)
    || exists e | i <= e < j :: PrefixAt(s, i, e, j)
  }

  /** The dotted quad `s[i..e]`, then `/` at `e` and one or two digits. */
  predicate PrefixAt(s: string, i: int, e: int, j: int) {
    && InRange(s, i, j) && i <= e < j
    && Quad(Strict, s, i, e) && s[e] == '/' && 1 <= j - e - 1 <= 2 && DigitsIn(s, e + 1, j)
  }

  /** The whole alternation, alternative by alternative (the second repeats the first). */
  predicate IpPatternAt(s: string, i: int, j: int) {
    || DecimalSlash(s, i, j)
    || DecimalSlash(s, i, j)
    || HexSlashHextets(s, i, j)
    || DecimalPort(s, i, j)
    || DecimalPrefix(s, i, j)
  }

  /** `re.search(pattern, url)` finds a match: some range of `url` is in the language. */
  predicate SearchIp(url: string) {
    exists i, j | 0 <= i <= j <= |url| :: IpPatternAt(url, i, j)
  }

  // ---------------------------------------------------------------------
  // The octet patterns

  /** The decimal value of a string of digits. */
  function DecimalValue(w: string): nat
    requires forall k | 0 <= k < |w| :: IsDigit(w[k])
  {
    if w == [] then 0
    else
      assert IsDigit(w[|w| - 1]);
      DecimalValue(w[..|w| - 1]) * 10 + (w[|w| - 1] as int - '0' as int)
  }

  /**
   * The two decimal octet patterns accept the same texts: one to three
   * decimal digits whose value is at most 255 (leading zeros allowed).
   */
  lemma OctetsAreBytes(s: string, i: int, j: int)
    ensures Octet(Loose, s, i, j) <==> Octet(Strict, s, i, j)
    ensures Octet(Strict, s, i, j) <==>
      DigitsIn(s, i, j) && 1 <= j - i <= 3 && DecimalValue(s[i..j]) <= 255
  {
    if DigitsIn(s, i, j) && 1 <= j - i <= 3 {
      var w := s[i..j];
      var d0 := w[0] as int - '0' as int;
      assert DecimalValue(w[..1]) == d0 by {
        assert w[..1][..0] == [];
      }
      if |w| >= 2 {
        var d1 := w[1] as int - '0' as int;
        assert w[..2][..1] == w[..1];
        assert DecimalValue(w[..2]) == d0 * 10 + d1;
        if |w| == 3 {
          assert w[..3] == w;
          assert w[..2] == w[..|w| - 1];
        } else {
          assert w[..2] == w;
        }
      } else {
        assert w[..1] == w;
      }
    }
  }

  // ---------------------------------------------------------------------
  // Every alternative needs a digit and a dot

  /** `s[i..j]` holds a decimal digit and a dot. */
  predicate DigitAndDot(s: string, i: int, j: int) {
    InRange(s, i, j) &&
    (exists k | i <= k < j :: IsDigit(s[k])) && (exists d | i <= d < j :: s[d] == '.')
  }

  lemma OctetStartsWithDigit(form: OctetForm, s: string, i: int, j: int)
    requires Octet(form, s, i, j)
    ensures i < j && IsDigit(s[i])
  {
  }

  lemma QuadHasDigitAndDot(form: OctetForm, s: string, i: int, j: int)
    requires Quad(form, s, i, j)
    ensures DigitAndDot(s, i, j)
  {
    var p, q, r :| i <= p < q < r < j && QuadAt(form, s, i, p, q, r, j);
    OctetStartsWithDigit(form, s, i, p);
  }

  lemma HexHasDigitAndDot(s: string, i: int, j: int)
    requires HexSlashHextets(s, i, j)
    ensures DigitAndDot(s, i, j)
  {
    var a, m :| i <= a < m <= j && HexAt(s, i, a, m, j);
    QuadHasDigitAndDot(Hex, s, i, a);
  }

  lemma PortHasDigitAndDot(s: string, i: int, j: int)
    requires DecimalPort(s, i, j)
    ensures DigitAndDot(s, i, j)
  {
    var p, q, r, t :| i <= p < q < r < t < j && PortAt(s, i, p, q, r, t, j);
    assert IsDigit(s[i]);
  }

  lemma PrefixHasDigitAndDot(s: string, i: int, j: int)
    requires DecimalPrefix(s, i, j)
    ensures DigitAndDot(s, i, j)
  {
    if Quad(Strict, s, i, j) {
      QuadHasDigitAndDot(Strict, s, i, j);
    } else {
      var e :| i <= e < j && PrefixAt(s, i, e, j);
      QuadHasDigitAndDot(Strict, s, i, e);
    }
  }

  lemma MatchHasDigitAndDot(s: string, i: int, j: int)
    requires IpPatternAt(s, i, j)
    ensures DigitAndDot(s, i, j)
  {
    if DecimalSlash(s, i, j) {
      QuadHasDigitAndDot(Loose, s, i, j - 1);
    } else if HexSlashHextets(s, i, j) {
      HexHasDigitAndDot(s, i, j);
    } else if DecimalPort(s, i, j) {
      PortHasDigitAndDot(s, i, j);
    } else {
      PrefixHasDigitAndDot(s, i, j);
    }
  }

  /**
   * A URL in which `re.search` finds the IP pattern contains a decimal digit
   * and a dot; so a bare IPv6 address (eight hextets, no dot) is never found.
   */
  lemma SearchNeedsDigitAndDot(url: string)
    requires SearchIp(url)
    ensures (exists k | 0 <= k < |url| :: IsDigit(url[k])) && '.' in url
  {
    var i, j :| 0 <= i <= j <= |url| && IpPatternAt(url, i, j);
    MatchHasDigitAndDot(url, i, j);
    var d :| i <= d < j && url[d] == '.';
  }

  // ---------------------------------------------------------------------
  // What the alternation reduces to

  /**
   * The alternatives that decide the search: alternatives 1 and 2 only
   * match a dotted quad followed by `/`, and the dotted quad alone already
   * matches alternative 5, as does its prefix without `/\d{1,2}`.
   */
  predicate ReducedPatternAt(s: string, i: int, j: int) {
    Quad(Strict, s, i, j) || HexSlashHextets(s, i, j) || DecimalPort(s, i, j)
  }

  lemma LooseOctetIsStrict(s: string, i: int, j: int)
    requires Octet(Loose, s, i, j)
    ensures Octet(Strict, s, i, j)
  {
  }

  lemma LooseQuadIsStrictQuad(s: string, i: int, j: int)
    requires Quad(Loose, s, i, j)
    ensures Quad(Strict, s, i, j)
  {
    var p, q, r :| i <= p < q < r < j && QuadAt(Loose, s, i, p, q, r, j);
    LooseOctetIsStrict(s, i, p);
    LooseOctetIsStrict(s, p + 1, q);
    LooseOctetIsStrict(s, q + 1, r);
    LooseOctetIsStrict(s, r + 1, j);
    assert QuadAt(Strict, s, i, p, q, r, j);
  }

  /** Every match contains a range that matches one of the reduced alternatives. */
  lemma PatternReduces(s: string, i: int, j: int)
    requires IpPatternAt(s, i, j)
    ensures exists i', j' | i <= i' <= j' <= j :: ReducedPatternAt(s, i', j')
  {
    if DecimalSlash(s, i, j) {
      LooseQuadIsStrictQuad(s, i, j - 1);
      assert ReducedPatternAt(s, i, j - 1);
    } else if HexSlashHextets(s, i, j) || DecimalPort(s, i, j) || Quad(Strict, s, i, j) {
      assert ReducedPatternAt(s, i, j);
    } else {
      var e :| i <= e < j && PrefixAt(s, i, e, j);
      assert ReducedPatternAt(s, i, e);
    }
  }

  /**
   * The search succeeds exactly when some range is a strict dotted quad, a
   * hexadecimal quad followed by `/` and eight hextets, or four digit runs
   * with a port: the duplicated alternative and the optional `/\d{1,2}`
   * suffix never change the outcome.
   */
  lemma SearchIpReduced(url: string)
    ensures SearchIp(url) <==> exists i, j | 0 <= i <= j <= |url| :: ReducedPatternAt(url, i, j)
  {
    if SearchIp(url) {
      var i, j :| 0 <= i <= j <= |url| && IpPatternAt(url, i, j);
      PatternReduces(url, i, j);
    }
    if exists i, j | 0 <= i <= j <= |url| :: ReducedPatternAt(url, i, j) {
      var i, j :| 0 <= i <= j <= |url| && ReducedPatternAt(url, i, j);
      assert IpPatternAt(url, i, j);
    }
  }

  lemma HexHasColon(s: string, i: int, j: int)
    requires HexSlashHextets(s, i, j)
    ensures ':' in s
  {
    var a, m :| i <= a < m <= j && HexAt(s, i, a, m, j);
    var k :| a + 1 < k < m && GroupAt(s, a + 1, k, m, 7);
    assert s[k] in s;
  }

  lemma PortHasColon(s: string, i: int, j: int)
    requires DecimalPort(s, i, j)
    ensures ':' in s
  {
    var p, q, r, t :| i <= p < q < r < t < j && PortAt(s, i, p, q, r, t, j);
    assert s[t] in s;
  }

  /**
   * Without a `:` only the dotted-decimal alternatives can match: a
   * hexadecimal IPv4 address is recognised only when eight colon-separated
   * hextets follow it.
   */
  lemma SearchIpWithoutColon(url: string)
    requires ':' !in url
    ensures SearchIp(url) <==> exists i, j | 0 <= i <= j <= |url| :: Quad(Strict, url, i, j)
  {
    SearchIpReduced(url);
    forall i, j | 0 <= i <= j <= |url| && ReducedPatternAt(url, i, j)
      ensures Quad(Strict, url, i, j)
    {
      if HexSlashHextets(url, i, j) {
        HexHasColon(url, i, j);
        assert false;
      } else if DecimalPort(url, i, j) {
        PortHasColon(url, i, j);
        assert false;
      }
    }
    forall i, j | 0 <= i <= j <= |url| && Quad(Strict, url, i, j)
      ensures ReducedPatternAt(url, i, j)
    {
    }
  }
}
