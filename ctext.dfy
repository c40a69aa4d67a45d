/**
 * The part of the C library's text handling that the naming service's wire
 * protocol is built from: sscanf's `%s`, `%d` and `%[^\n]` conversions and its
 * white-space directive, strtok with a one-character delimiter set, sprintf's
 * `%d`, snprintf/strncpy truncation, strncmp prefix tests and the strcat loops
 * that join path lists. A string here is a C string without its terminating NUL,
 * one character per byte.
 */
module CText {
  import opened Wrappers

  /** isspace() in the C locale: space, \t, \n, \v, \f, \r. */
  predicate IsSpace(c: char) {
    c == ' ' || c == '\t' || c == '\n' || c == '\r' || c as int == 11 || c as int == 12
  }

  predicate IsDigit(c: char) {
    '0' <= c <= '9'
  }

  predicate AllDigits(s: string) {
    forall i :: 0 <= i < |s| ==> IsDigit(s[i])
  }

  predicate NoSpace(s: string) {
    forall i :: 0 <= i < |s| ==> !IsSpace(s[i])
  }

  predicate NoChar(s: string, d: char) {
    forall i :: 0 <= i < |s| ==> s[i] != d
  }

  /** What one `%s` conversion can yield: a non-empty run without white space. */
  predicate IsWord(s: string) {
    s != [] && NoSpace(s)
  }

  /** strncmp(s, p, |p|) == 0, for strings without NUL. */
  predicate HasPrefix(s: string, p: string) {
    |p| <= |s| && s[..|p|] == p
  }

  // ---------------------------------------------------------------------------
  // Scanning (sscanf)
  // ---------------------------------------------------------------------------

  /** A white-space directive of a scanf format: drops every leading white-space character. */
  function SkipSpaces(s: string): (r: string)
    ensures |r| <= |s| && r == s[|s| - |r|..]
    ensures forall i :: 0 <= i < |s| - |r| ==> IsSpace(s[i])
    ensures r == [] || !IsSpace(r[0])
  {
    if s != [] && IsSpace(s[0]) then SkipSpaces(s[1..]) else s
  }

  /** Length of the leading run of non-white-space characters. */
  function WordLength(s: string): (k: nat)
    ensures k <= |s|
    ensures forall i :: 0 <= i < k ==> !IsSpace(s[i])
    ensures k < |s| ==> IsSpace(s[k])
  {
    if s != [] && !IsSpace(s[0]) then 1 + WordLength(s[1..]) else 0
  }

  /** Length of the leading run of characters other than `d`. */
  function RunLength(s: string, d: char): (k: nat)
    ensures k <= |s|
    ensures forall i :: 0 <= i < k ==> s[i] != d
    ensures k < |s| ==> s[k] == d
  {
    if s != [] && s[0] != d then 1 + RunLength(s[1..], d) else 0
  }

  /** Length of the leading run of decimal digits. */
  function DigitRunLength(s: string): (k: nat)
    ensures k <= |s|
    ensures forall i :: 0 <= i < k ==> IsDigit(s[i])
    ensures k < |s| ==> !IsDigit(s[k])
  {
    if s != [] && IsDigit(s[0]) then 1 + DigitRunLength(s[1..]) else 0
  }

  /** `%s`: skips white space, then takes the longest non-empty run without white space. */
  function ScanWord(s: string): (r: Option<(string, string)>)
    ensures r.None? <==> SkipSpaces(s) == []
    ensures r.Some? ==> IsWord(r.value.0) && SkipSpaces(s) == r.value.0 + r.value.1
    ensures r.Some? ==> (r.value.1 == [] || IsSpace(r.value.1[0])) && |r.value.1| < |s|
  {
    var t := SkipSpaces(s);
    var k := WordLength(t);
    if k == 0 then None
    else
      WordSplit(t, k);
      Some((t[..k], t[k..]))
  }

  /** The leading word of `t` and what follows it. */
  lemma WordSplit(t: string, k: nat)
    requires k == WordLength(t) && k > 0
    ensures IsWord(t[..k]) && t[..k] + t[k..] == t
    ensures t[k..] == [] || IsSpace(t[k..][0])
  {
    var w := t[..k];
    forall i | 0 <= i < |w| ensures !IsSpace(w[i]) {
      assert w[i] == t[i];
    }
  }

  /** The value of a run of decimal digits. */
  function DigitsValue(ds: string): nat
    requires AllDigits(ds)
  {
    if ds == [] then 0 else DigitsValue(ds[..|ds| - 1]) * 10 + (ds[|ds| - 1] as int - '0' as int)
  }

  /** The longest non-empty run of digits at the start of `u`, and its value. */
  function ScanDigits(u: string): (r: Option<(nat, string)>)
    ensures r.Some? ==> |r.value.1| < |u|
  {
    var k := DigitRunLength(u);
    if k == 0 then None else Some((DigitsValue(u[..k]), u[k..]))
  }

  /**
   * `%d`: skips white space, takes an optional sign and then the longest non-empty
   * run of digits. The value is unbounded: overflow of `int` is not modelled.
   */
  function ScanInt(s: string): (r: Option<(int, string)>)
    ensures r.Some? ==> |r.value.1| < |s|
  {
    ScanSigned(SkipSpaces(s))
  }

  /** `%d` once the white space is skipped: an optional sign and a non-empty run of digits. */
  function ScanSigned(t: string): (r: Option<(int, string)>)
    ensures r.Some? ==> |r.value.1| < |t|
  {
    if t != [] && (t[0] == '-' || t[0] == '+') then
      match ScanDigits(t[1..])
      case None => None
      case Some((v, rest)) =>
        var n: int := if t[0] == '-' then 0 - (v as int) else v;
        Some((n, rest))
    else
      match ScanDigits(t)
      case None => None
      case Some((v, rest)) => Some((v, rest))
  }

  /** `%[^\n]` (without a white-space directive before it): the longest non-empty run without a newline. */
  function ScanLine(s: string): (r: Option<(string, string)>)
    ensures r.None? <==> (s == [] || s[0] == '\n')
    ensures r.Some? ==> r.value.0 != [] && NoChar(r.value.0, '\n') && s == r.value.0 + r.value.1
  {
    var k := RunLength(s, '\n');
    if k == 0 then None else Some((s[..k], s[k..]))
  }

  /** The successive `%s` conversions a run of `%s %s ...` directives can make on `s`. */
  function Words(s: string): (ws: seq<string>)
    ensures forall i :: 0 <= i < |ws| ==> ws[i] != []
    decreases |s|
  {
    match ScanWord(s)
    case None => []
    case Some((w, rest)) => [w] + Words(rest)
  }

  /** strtok(s, [d]) called until it returns NULL: the non-empty runs between delimiters. */
  function Tokens(s: string, d: char): (ts: seq<string>)
    ensures forall i :: 0 <= i < |ts| ==> ts[i] != [] && NoChar(ts[i], d)
    decreases |s|
  {
    if s == [] then []
    else if s[0] == d then Tokens(s[1..], d)
    else
      var k := RunLength(s, d);
      [s[..k]] + Tokens(s[k..], d)
  }

  // ---------------------------------------------------------------------------
  // Formatting (sprintf, snprintf, strncpy, strcat)
  // ---------------------------------------------------------------------------

  function DigitChar(d: nat): (c: char)
    requires d < 10
    ensures IsDigit(c) && c as int - '0' as int == d
  {
    ('0' as int + d) as char
  }

  /** Decimal digits of `n`, most significant first, without leading zeros. */
  function NatToString(n: nat): (s: string)
    ensures s != [] && AllDigits(s) && DigitsValue(s) == n
    ensures n > 0 ==> s[0] != '0'
  {
    if n < 10 then [DigitChar(n)]
    else
      var s := NatToString(n / 10) + [DigitChar(n % 10)];
      assert s[..|s| - 1] == NatToString(n / 10);
      s
  }

  /** sprintf "%d". */
  function IntToString(n: int): (s: string)
    ensures s != [] && !IsSpace(s[0]) && NoSpace(s)
    ensures s[0] == '-' <==> n < 0
  {
    if n < 0 then "-" + NatToString(-n) else NatToString(n)
  }

  /**
   * The first `n` elements, or all of them when there are fewer. On a string this
   * is what snprintf(buf, n + 1, "%s", s) and strncpy(buf, s, n) keep.
   */
  function Take<T>(ts: seq<T>, n: nat): (r: seq<T>)
    ensures |r| == if |ts| <= n then |ts| else n
    ensures r == ts[..|r|]
  {
    if |ts| <= n then ts else ts[..n]
  }

  function TruncateAll(ps: seq<string>, n: nat): (rs: seq<string>)
    ensures |rs| == |ps|
    ensures forall i :: 0 <= i < |ps| ==> rs[i] == Take(ps[i], n)
  {
    seq(|ps|, i requires 0 <= i < |ps| => Take(ps[i], n))
  }

  /** The parts separated by single `d` characters, with no delimiter before the first or after the last. */
  function Join(ps: seq<string>, d: char): string
  {
    if |ps| == 0 then ""
    else if |ps| == 1 then ps[0]
    else ps[0] + [d] + Join(ps[1..], d)
  }

  /** The strcat loop `for p in ps: strcat(buf, " "); strcat(buf, p)`. */
  function SpacePrefixed(ps: seq<string>): string
  {
    if ps == [] then "" else SpacePrefixed(ps[..|ps| - 1]) + " " + ps[|ps| - 1]
  }

  // ---------------------------------------------------------------------------
  // Lemmas: what the conversions recover from what the formatting produced
  // ---------------------------------------------------------------------------

  lemma SkipSpacesNoop(s: string)
    requires s == [] || !IsSpace(s[0])
    ensures SkipSpaces(s) == s
  {
  }

  lemma {:induction false} SkipSpacesOfSpace(x: string)
    ensures SkipSpaces(" " + x) == SkipSpaces(x)
  {
    var s := " " + x;
    assert s != [] && IsSpace(s[0]) && s[1..] == x;
    assert SkipSpaces(s) == SkipSpaces(s[1..]);
  }

  lemma {:induction false} WordLengthOf(w: string, rest: string)
    requires NoSpace(w)
    requires rest == [] || IsSpace(rest[0])
    ensures WordLength(w + rest) == |w|
  {
    if w != [] {
      assert (w + rest)[1..] == w[1..] + rest;
      WordLengthOf(w[1..], rest);
    }
  }

  lemma {:induction false} RunLengthOf(w: string, rest: string, d: char)
    requires NoChar(w, d)
    requires rest == [] || rest[0] == d
    ensures RunLength(w + rest, d) == |w|
  {
    if w != [] {
      assert (w + rest)[1..] == w[1..] + rest;
      RunLengthOf(w[1..], rest, d);
    }
  }

  lemma {:induction false} DigitRunLengthOf(ds: string, rest: string)
    requires AllDigits(ds)
    requires rest == [] || !IsDigit(rest[0])
    ensures DigitRunLength(ds + rest) == |ds|
  {
    if ds != [] {
      assert (ds + rest)[1..] == ds[1..] + rest;
      DigitRunLengthOf(ds[1..], rest);
    }
  }

  /** A word followed by white space (or nothing) is exactly what `%s` reads back. */
  lemma ScanWordRoundTrip(w: string, rest: string)
    requires IsWord(w)
    requires rest == [] || IsSpace(rest[0])
    ensures ScanWord(w + rest) == Some((w, rest))
  {
    SkipSpacesNoop(w + rest);
    WordLengthOf(w, rest);
    assert (w + rest)[..|w|] == w && (w + rest)[|w|..] == rest;
  }

  lemma ScanWordOfSpace(x: string)
    ensures ScanWord(" " + x) == ScanWord(x)
  {
    SkipSpacesOfSpace(x);
  }

  lemma ScanIntOfSpace(x: string)
    ensures ScanInt(" " + x) == ScanInt(x)
  {
    SkipSpacesOfSpace(x);
  }

  /** A `%d` after a white-space character reads back the number sprintf "%d" wrote there. */
  lemma ScanIntAfterSpace(n: int, rest: string)
    requires rest == [] || IsSpace(rest[0])
    ensures ScanInt(" " + IntToString(n) + rest) == Some((n, rest))
  {
    ConcatAssoc(" ", IntToString(n), rest);
    ScanIntOfSpace(IntToString(n) + rest);
    ScanIntRoundTrip(n, rest);
  }

  /** A `%d` after a white-space character at the end of the text. */
  lemma ScanIntAtEnd(n: int)
    ensures ScanInt(" " + IntToString(n)) == Some((n, ""))
  {
    ScanIntAfterSpace(n, "");
    assert " " + IntToString(n) + "" == " " + IntToString(n);
  }

  lemma ScanDigitsRoundTrip(ds: string, rest: string)
    requires ds != [] && AllDigits(ds)
    requires rest == [] || !IsDigit(rest[0])
    ensures ScanDigits(ds + rest) == Some((DigitsValue(ds), rest))
  {
    DigitRunLengthOf(ds, rest);
    assert (ds + rest)[..|ds|] == ds && (ds + rest)[|ds|..] == rest;
  }

  /** sprintf "%d" followed by a non-digit is exactly what `%d` reads back. */
  lemma ScanIntRoundTrip(n: int, rest: string)
    requires rest == [] || !IsDigit(rest[0])
    ensures ScanInt(IntToString(n) + rest) == Some((n, rest))
  {
    var s := IntToString(n) + rest;
    SkipSpacesNoop(s);
    if n < 0 {
      ScanNegativeRoundTrip(n, rest);
    } else {
      var ds := NatToString(n);
      assert s == ds + rest && s[0] == ds[0];
      ScanDigitsRoundTrip(ds, rest);
    }
  }

  lemma ScanNegativeRoundTrip(n: int, rest: string)
    requires n < 0 && (rest == [] || !IsDigit(rest[0]))
    ensures ScanInt(IntToString(n) + rest) == Some((n, rest))
  {
    var m: nat := -n;
    var ds := NatToString(m);
    assert IntToString(n) + rest == "-" + (ds + rest);
    ScanDigitsRoundTrip(ds, rest);
    ScanIntOfMinus(ds + rest, m, rest);
  }

  /** `%d` on a minus sign followed by digits negates what the digits read. */
  lemma ScanIntOfMinus(u: string, v: nat, rest: string)
    requires ScanDigits(u) == Some((v, rest))
    ensures ScanInt("-" + u) == Some((0 - v, rest))
  {
    var s := "-" + u;
    SkipSpacesNoop(s);
    assert s[0] == '-' && s[1..] == u;
  }

  /** `%[^\n]` reads back the whole of a non-empty line. */
  lemma ScanLineRoundTrip(line: string)
    requires line != [] && NoChar(line, '\n')
    ensures ScanLine(line) == Some((line, ""))
  {
    RunLengthOf(line, "", '\n');
    assert line + "" == line;
  }

  /** strtok recovers the parts of a join whose parts are non-empty and free of the delimiter. */
  lemma {:induction false} TokensOfJoin(ps: seq<string>, d: char)
    requires forall i :: 0 <= i < |ps| ==> ps[i] != [] && NoChar(ps[i], d)
    ensures Tokens(Join(ps, d), d) == ps
  {
    if |ps| == 1 {
      RunLengthOf(ps[0], "", d);
      assert ps[0] + "" == ps[0];
      assert Tokens(ps[0][|ps[0]|..], d) == [];
    } else if |ps| > 1 {
      var more := ps[1..];
      var tail := [d] + Join(more, d);
      var s := ps[0] + tail;
      assert Join(ps, d) == s;
      RunLengthOf(ps[0], tail, d);
      TokensStep(s, d, ps[0], tail);
      assert tail[0] == d && tail[1..] == Join(more, d);
      assert forall i :: 0 <= i < |more| ==> more[i] != [] && NoChar(more[i], d) by {
        forall i | 0 <= i < |more| ensures more[i] != [] && NoChar(more[i], d) {
          assert more[i] == ps[i + 1];
        }
      }
      TokensOfJoin(more, d);
      assert Tokens(tail, d) == more;
      assert [ps[0]] + more == ps;
    }
  }

  /** strtok takes the first run before a delimiter as the first token. */
  lemma TokensStep(s: string, d: char, t: string, tail: string)
    requires s == t + tail && t != [] && RunLength(s, d) == |t|
    ensures Tokens(s, d) == [t] + Tokens(tail, d)
  {
    assert s[0] == t[0];
    assert s[..|t|] == t && s[|t|..] == tail;
  }

  lemma WordsStep(s: string, w: string, rest: string)
    requires ScanWord(s) == Some((w, rest))
    ensures Words(s) == [w] + Words(rest)
  {
  }

  /** The `%s` conversions recover the words of a single-space join. */
  lemma {:induction false} WordsOfJoin(ws: seq<string>)
    requires forall i :: 0 <= i < |ws| ==> IsWord(ws[i])
    ensures Words(Join(ws, ' ')) == ws
  {
    if |ws| == 0 {
      WordsOfEmpty();
    } else if |ws| == 1 {
      WordsOfSingle(ws[0]);
    } else {
      var more := ws[1..];
      forall i | 0 <= i < |more| ensures IsWord(more[i]) {
        assert more[i] == ws[i + 1];
      }
      WordsOfJoin(more);
      WordsOfJoinStep(ws);
    }
  }

  lemma WordsOfEmpty()
    ensures Words("") == [] && Join([], ' ') == ""
  {
    assert SkipSpaces("") == [];
  }

  /** One word more in front of a join whose words are read back. */
  lemma WordsOfJoinStep(ws: seq<string>)
    requires |ws| >= 2 && IsWord(ws[0]) && Words(Join(ws[1..], ' ')) == ws[1..]
    ensures Words(Join(ws, ' ')) == ws
  {
    JoinCons(ws, ' ');
    WordsOfCons(ws[0], Join(ws[1..], ' '));
    HeadTail(ws);
  }

  lemma WordsOfSingle(w: string)
    requires IsWord(w)
    ensures Words(w) == [w]
  {
    ScanWordRoundTrip(w, "");
    assert w + "" == w;
    WordsStep(w, w, "");
    assert SkipSpaces("") == [];
  }

  lemma WordsOfCons(w: string, tail: string)
    requires IsWord(w)
    ensures Words(w + ([' '] + tail)) == [w] + Words(tail)
  {
    assert [' '] == " ";
    ScanWordRoundTrip(w, " " + tail);
    WordsStep(w + (" " + tail), w, " " + tail);
    ScanWordOfSpace(tail);
  }

  lemma JoinCons(ps: seq<string>, d: char)
    requires |ps| >= 2
    ensures Join(ps, d) == ps[0] + ([d] + Join(ps[1..], d))
  {
    ConcatAssoc(ps[0], [d], Join(ps[1..], d));
  }

  lemma {:induction false} JoinSnoc(ps: seq<string>, p: string, d: char)
    requires ps != []
    ensures Join(ps + [p], d) == Join(ps, d) + [d] + p
  {
    var q := ps + [p];
    if |ps| == 1 {
      assert q[1..] == [p];
      assert Join(q, d) == ps[0] + [d] + p;
    } else {
      assert q[0] == ps[0] && q[1..] == ps[1..] + [p];
      JoinSnoc(ps[1..], p, d);
      var j := Join(ps[1..], d);
      calc {
        Join(q, d);
        ps[0] + [d] + Join(ps[1..] + [p], d);
        ps[0] + [d] + (j + [d] + p);
        { assert ps[0] + [d] + (j + [d] + p) == (ps[0] + [d] + j) + [d] + p; }
        (ps[0] + [d] + j) + [d] + p;
      }
    }
  }

  /** The strcat loop of " " + path is a single space followed by the space-join of the paths. */
  lemma {:induction false} SpacePrefixedIsJoin(ps: seq<string>)
    requires ps != []
    ensures SpacePrefixed(ps) == " " + Join(ps, ' ')
  {
    var init, last := ps[..|ps| - 1], ps[|ps| - 1];
    if |ps| > 1 {
      SpacePrefixedIsJoin(init);
      JoinSnoc(init, last, ' ');
      assert init + [last] == ps;
      var j := Join(init, ' ');
      calc {
        SpacePrefixed(ps);
        SpacePrefixed(init) + " " + last;
        (" " + j) + " " + last;
        { assert (" " + j) + " " + last == " " + (j + [' '] + last); }
        " " + (j + [' '] + last);
        " " + Join(ps, ' ');
      }
    } else {
      assert init == [];
      assert SpacePrefixed(ps) == "" + " " + last;
    }
  }

  /** A join avoids every character its parts avoid, other than the separator itself. */
  lemma {:induction false} JoinAvoids(ps: seq<string>, d: char, c: char)
    requires c != d
    requires forall i :: 0 <= i < |ps| ==> NoChar(ps[i], c)
    ensures NoChar(Join(ps, d), c)
  {
    if |ps| > 1 {
      JoinAvoids(ps[1..], d, c);
    }
  }

  lemma {:induction false} JoinStart(ps: seq<string>, d: char)
    requires ps != [] && ps[0] != []
    ensures Join(ps, d) != [] && Join(ps, d)[0] == ps[0][0]
  {
  }

  /** Concatenation is associative; stated once so that a loop step can name the regrouping it needs. */
  lemma ConcatAssoc<T>(a: seq<T>, b: seq<T>, c: seq<T>)
    ensures a + (b + c) == (a + b) + c
  {
  }

  /** A prefix of the tail, behind the head, is a prefix of the whole. */
  lemma ConsPrefix<T>(s: seq<T>, tail: seq<T>)
    requires s != [] && |tail| < |s| && tail == s[1..][..|tail|]
    ensures [s[0]] + tail == s[..|tail| + 1]
  {
    assert s[..|tail| + 1] == [s[0]] + s[1..][..|tail|];
  }

  lemma HeadTail<T>(s: seq<T>)
    requires s != []
    ensures [s[0]] + s[1..] == s
  {
  }
}
