/**
 * String operations the chart code relies on, with the semantics of the
 * language that performs them: Python's `str.strip`, `str.split`,
 * `str.replace` and `str.lower`, JavaScript's `startsWith`, `endsWith` and
 * `toLowerCase`, and the decimal form in which both print integers.
 */
module Text {
  import opened Wrappers

  // ---------------------------------------------------------------------
  // Prefixes and suffixes
  // ---------------------------------------------------------------------

  predicate StartsWith(s: string, prefix: string) {
    |prefix| <= |s| && s[..|prefix|] == prefix
  }

  predicate EndsWith(s: string, suffix: string) {
    |suffix| <= |s| && s[|s| - |suffix|..] == suffix
  }

  // ---------------------------------------------------------------------
  // Case
  // ---------------------------------------------------------------------

  function LowerChar(c: char): char {
    if 'A' <= c <= 'Z' then (c as int + 32) as char else c
  }

  /**
   * Lower-casing of the ASCII letters. Python's `str.lower` and JavaScript's
   * `toLowerCase` also map other characters, a few of them to ASCII (KELVIN
   * SIGN to 'k', LATIN CAPITAL LETTER I WITH DOT ABOVE to 'i' and a combining
   * dot), but none outside 'A'..'Z' to a letter of "update", "select" or
   * "sql", so a comparison against those words decides the same way.
   */
  function AsciiLower(s: string): (r: string)
    ensures |r| == |s|
    ensures forall i :: 0 <= i < |s| ==> r[i] == LowerChar(s[i])
  {
    seq(|s|, i requires 0 <= i < |s| => LowerChar(s[i]))
  }

  // ---------------------------------------------------------------------
  // Whitespace and stripping
  // ---------------------------------------------------------------------

  /** The characters Python's `str.isspace` accepts; `strip()` and `split()` use them. */
  predicate IsPySpace(c: char) {
    || c == ' ' || c == '\t' || c == '\n' || c == '\U{B}' || c == '\U{C}' || c == '\r'
    || ('\U{1C}' <= c <= '\U{1F}')
    || c == '\U{85}' || c == '\U{A0}' || c == '\U{1680}'
    || ('\U{2000}' <= c <= '\U{200A}')
    || c == '\U{2028}' || c == '\U{2029}' || c == '\U{202F}' || c == '\U{205F}' || c == '\U{3000}'
  }

  /** What a strip call removes: whitespace (`strip()`) or one given character (`strip("`")`, `rstrip(";")`). */
  datatype Strippable = Whitespace | Only(c: char)

  predicate Strips(k: Strippable, c: char) {
    match k
    case Whitespace => IsPySpace(c)
    case Only(d) => c == d
  }

  /** Python's `lstrip`: the longest suffix of `s` that does not start with a strippable character. */
  function LStrip(s: string, k: Strippable): (r: string)
    ensures |r| <= |s| && r == s[|s| - |r|..]
    ensures forall i :: 0 <= i < |s| - |r| ==> Strips(k, s[i])
    ensures r == [] || !Strips(k, r[0])
    decreases |s|
  {
    if s != [] && Strips(k, s[0]) then LStrip(s[1..], k) else s
  }

  /** Python's `rstrip`: the longest prefix of `s` that does not end with a strippable character. */
  function RStrip(s: string, k: Strippable): (r: string)
    ensures |r| <= |s| && r == s[..|r|]
    ensures forall i :: |r| <= i < |s| ==> Strips(k, s[i])
    ensures r == [] || !Strips(k, r[|r| - 1])
    decreases |s|
  {
    if s != [] && Strips(k, s[|s| - 1]) then RStrip(s[..|s| - 1], k) else s
  }

  /** `s[i..j]` is `s` with only characters that `k` strips removed from its two ends. */
  predicate TrimmedTo(s: string, k: Strippable, i: int, j: int) {
    && 0 <= i <= j <= |s|
    && (forall m :: 0 <= m < i ==> Strips(k, s[m]))
    && (forall m :: j <= m < |s| ==> Strips(k, s[m]))
  }

  /** Dropping strippable characters from the front and then from the back trims `s` to a slice. */
  lemma BothEndsTrimmed(s: string, k: Strippable, i: nat, l: string, r: string)
    requires i <= |s| && l == s[i..] && forall m :: 0 <= m < i ==> Strips(k, s[m])
    requires |r| <= |l| && r == l[..|r|] && forall m :: |r| <= m < |l| ==> Strips(k, l[m])
    ensures TrimmedTo(s, k, i, i + |r|) && r == s[i..i + |r|]
  {
    forall m | i + |r| <= m < |s| ensures Strips(k, s[m]) {
      assert s[m] == l[m - i];
    }
  }

  /** Python's `strip`: both ends. */
  function Strip(s: string, k: Strippable): (r: string)
    ensures exists i, j :: TrimmedTo(s, k, i, j) && r == s[i..j]
    ensures r == [] || (!Strips(k, r[0]) && !Strips(k, r[|r| - 1]))
  {
    var l := LStrip(s, k);
    var r := RStrip(l, k);
    BothEndsTrimmed(s, k, |s| - |l|, l, r);
    r
  }

  lemma StripIsBothEnds(s: string, k: Strippable)
    ensures Strip(s, k) == RStrip(LStrip(s, k), k)
  {
  }

  // ---------------------------------------------------------------------
  // Python's str.split() and " ".join(...)
  // ---------------------------------------------------------------------

  predicate IsWord(w: string) {
    w != [] && forall j :: 0 <= j < |w| ==> !IsPySpace(w[j])
  }

  /** The characters of `s` that are not whitespace, in order. */
  function NonSpace(s: string): string {
    if s == [] then [] else (if IsPySpace(s[0]) then [] else [s[0]]) + NonSpace(s[1..])
  }

  lemma {:induction false} NonSpaceAppend(a: string, b: string)
    ensures NonSpace(a + b) == NonSpace(a) + NonSpace(b)
    decreases |a|
  {
    if a != [] {
      assert (a + b)[0] == a[0];
      assert (a + b)[1..] == a[1..] + b;
      NonSpaceAppend(a[1..], b);
    } else {
      assert a + b == b;
    }
  }

  lemma {:induction false} NonSpaceOfSpaces(s: string)
    requires forall i :: 0 <= i < |s| ==> IsPySpace(s[i])
    ensures NonSpace(s) == []
    decreases |s|
  {
    if s != [] { NonSpaceOfSpaces(s[1..]); }
  }

  lemma {:induction false} NonSpaceOfWord(w: string)
    requires forall i :: 0 <= i < |w| ==> !IsPySpace(w[i])
    ensures NonSpace(w) == w
    decreases |w|
  {
    if w != [] { NonSpaceOfWord(w[1..]); }
  }

  /** Length of the leading run of non-whitespace characters. */
  function WordLength(t: string): (n: nat)
    ensures n <= |t|
    ensures forall i :: 0 <= i < n ==> !IsPySpace(t[i])
    ensures n == |t| || IsPySpace(t[n])
    decreases |t|
  {
    if t == [] || IsPySpace(t[0]) then 0 else 1 + WordLength(t[1..])
  }

  function Concat(ws: seq<string>): string {
    if ws == [] then [] else ws[0] + Concat(ws[1..])
  }

  /** Python's `s.split()`: the maximal runs of non-whitespace characters. */
  function Words(s: string): (ws: seq<string>)
    ensures forall i :: 0 <= i < |ws| ==> IsWord(ws[i])
    ensures Concat(ws) == NonSpace(s)
    decreases |s|
  {
    var t := LStrip(s, Whitespace);
    if t == [] then
      LeadingSpaceIsInvisible(s, t);
      []
    else
      var n := WordLength(t);
      FirstWordSplits(s, t, n);
      var rest := Words(t[n..]);
      var ws := [t[..n]] + rest;
      assert ws[1..] == rest;
      ws
  }

  lemma LeadingSpaceIsInvisible(s: string, t: string)
    requires t == LStrip(s, Whitespace)
    ensures NonSpace(s) == NonSpace(t)
  {
    assert s == s[..|s| - |t|] + t;
    NonSpaceAppend(s[..|s| - |t|], t);
    NonSpaceOfSpaces(s[..|s| - |t|]);
  }

  lemma FirstWordSplits(s: string, t: string, n: nat)
    requires t == LStrip(s, Whitespace) && t != []
    requires n == WordLength(t)
    ensures IsWord(t[..n])
    ensures NonSpace(s) == t[..n] + NonSpace(t[n..])
  {
    assert !IsPySpace(t[0]);
    assert n > 0;
    var w := t[..n];
    forall j | 0 <= j < |w| ensures !IsPySpace(w[j]) {
      assert w[j] == t[j];
    }
    LeadingSpaceIsInvisible(s, t);
    WordThenRest(t, n);
  }

  lemma WordThenRest(t: string, n: nat)
    requires n <= |t| && forall i :: 0 <= i < n ==> !IsPySpace(t[i])
    ensures NonSpace(t) == t[..n] + NonSpace(t[n..])
  {
    var w, rest := t[..n], t[n..];
    assert t == w + rest;
    NonSpaceAppend(w, rest);
    NonSpaceOfWord(w);
  }

  /** Python's `sep.join(ws)`. */
  function Join(ws: seq<string>, sep: string): string {
    if ws == [] then []
    else if |ws| == 1 then ws[0]
    else ws[0] + sep + Join(ws[1..], sep)
  }

  lemma JoinCons(w: string, ws: seq<string>, sep: string)
    requires ws != []
    ensures Join([w] + ws, sep) == w + sep + Join(ws, sep)
  {
    assert ([w] + ws)[1..] == ws;
  }

  lemma AppendAssoc<T>(a: seq<T>, b: seq<T>, c: seq<T>)
    ensures a + b + c == a + (b + c)
  {
  }

  /**
   * Whitespace squeezing read one character at a time: every character
   * that is not whitespace is kept, and a run of whitespace between two kept
   * characters becomes one ' '. `pending` says whether whitespace was passed
   * since the last kept character, `started` whether one was kept yet, so
   * whitespace at either end disappears.
   */
  function Squeezed(s: string, pending: bool, started: bool): string
    decreases |s|
  {
    if s == [] then []
    else if IsPySpace(s[0]) then Squeezed(s[1..], true, started)
    else if pending && started then " " + ([s[0]] + Squeezed(s[1..], false, true))
    else [s[0]] + Squeezed(s[1..], false, true)
  }

  function Squeeze(s: string): string {
    Squeezed(s, false, false)
  }

  /** Before anything is kept, whether whitespace was passed makes no difference. */
  lemma SqueezedUnstarted(s: string, pending: bool)
    ensures Squeezed(s, pending, false) == Squeezed(s, false, false)
  {
  }

  /** A run of whitespace only records that whitespace was passed. */
  lemma {:induction false} SqueezedSkipsSpaces(sp: string, v: string, pending: bool, started: bool)
    requires forall i :: 0 <= i < |sp| ==> IsPySpace(sp[i])
    ensures Squeezed(sp + v, pending, started) == Squeezed(v, pending || sp != [], started)
    decreases |sp|
  {
    if sp == [] {
      assert sp + v == v;
    } else {
      assert (sp + v)[1..] == sp[1..] + v;
      SqueezedSkipsSpaces(sp[1..], v, true, started);
    }
  }

  /** Whitespace at the end is dropped. */
  lemma {:induction false} SqueezedTrailingSpaces(u: string, sp: string, pending: bool, started: bool)
    requires forall i :: 0 <= i < |sp| ==> IsPySpace(sp[i])
    ensures Squeezed(u + sp, pending, started) == Squeezed(u, pending, started)
    decreases |u|
  {
    if u == [] {
      assert u + sp == sp + [];
      SqueezedSkipsSpaces(sp, [], pending, started);
    } else {
      assert (u + sp)[0] == u[0];
      assert (u + sp)[1..] == u[1..] + sp;
      if IsPySpace(u[0]) {
        SqueezedTrailingSpaces(u[1..], sp, true, started);
      } else {
        SqueezedTrailingSpaces(u[1..], sp, false, true);
      }
    }
  }

  /** After a kept character, the leading run of non-whitespace is copied as it is. */
  lemma {:induction false} SqueezedWordRun(u: string)
    ensures Squeezed(u, false, true) == u[..WordLength(u)] + Squeezed(u[WordLength(u)..], false, true)
    decreases |u|
  {
    var n := WordLength(u);
    if u == [] || IsPySpace(u[0]) {
      assert u[..n] + Squeezed(u[n..], false, true) == Squeezed(u, false, true);
    } else {
      var v := u[1..];
      var m := WordLength(v);
      SqueezedWordRun(v);
      assert n == m + 1;
      assert v[m..] == u[n..];
      calc {
        Squeezed(u, false, true);
        [u[0]] + Squeezed(v, false, true);
        [u[0]] + (v[..m] + Squeezed(u[n..], false, true));
        { AppendAssoc([u[0]], v[..m], Squeezed(u[n..], false, true)); }
        [u[0]] + v[..m] + Squeezed(u[n..], false, true);
        { assert [u[0]] + v[..m] == u[..n]; }
        u[..n] + Squeezed(u[n..], false, true);
      }
    }
  }

  /** From the first character of a word, the squeeze copies the word and goes on after it. */
  lemma SqueezedFromWord(u: string)
    requires u != [] && !IsPySpace(u[0])
    ensures Squeezed(u, false, false) == u[..WordLength(u)] + Squeezed(u[WordLength(u)..], false, true)
  {
    assert Squeezed(u, false, false) == Squeezed(u, false, true);
    SqueezedWordRun(u);
  }

  /** After a kept character, a whitespace gap then nothing yields nothing, and a gap then a word yields one space. */
  lemma SqueezedAfterGap(gap: string, v: string)
    requires forall i :: 0 <= i < |gap| ==> IsPySpace(gap[i])
    requires v == [] || (gap != [] && !IsPySpace(v[0]))
    ensures Squeezed(gap + v, false, true) == if v == [] then [] else " " + Squeezed(gap + v, false, false)
  {
    SqueezedSkipsSpaces(gap, v, false, true);
    if v != [] {
      SqueezedSkipsSpaces(gap, v, false, false);
      SqueezedUnstarted(v, true);
      assert Squeezed(v, true, true) == " " + Squeezed(v, false, false);
    }
  }

  /** After a word, the squeeze yields nothing more when only whitespace follows, and else one space and the squeeze of the rest. */
  lemma SqueezedAfterWord(r: string)
    requires r == [] || IsPySpace(r[0])
    ensures Squeezed(r, false, true) == if LStrip(r, Whitespace) == [] then [] else " " + Squeeze(r)
  {
    var v := LStrip(r, Whitespace);
    var gap := r[..|r| - |v|];
    assert r == gap + v && (forall i :: 0 <= i < |gap| ==> IsPySpace(gap[i])) && (v != [] ==> gap != []) by {
      assert r == gap + v;
      forall i | 0 <= i < |gap| ensures IsPySpace(gap[i]) {
        assert gap[i] == r[i];
      }
      if v != [] { assert !IsPySpace(v[0]) && IsPySpace(r[0]); }
    }
    SqueezedAfterGap(gap, v);
  }

  /** `split()` finds no word exactly in a string of whitespace. */
  lemma WordsEmpty(r: string)
    ensures Words(r) == [] <==> LStrip(r, Whitespace) == []
  {
    var v := LStrip(r, Whitespace);
    if v != [] {
      assert Words(r) == [v[..WordLength(v)]] + Words(v[WordLength(v)..]);
    }
  }

  /** Leading whitespace does not change the squeeze. */
  lemma SqueezeSkipsLead(t: string)
    ensures Squeeze(t) == Squeeze(LStrip(t, Whitespace))
  {
    var u := LStrip(t, Whitespace);
    var lead := t[..|t| - |u|];
    assert t == lead + u;
    SqueezedSkipsSpaces(lead, u, false, false);
    SqueezedUnstarted(u, lead != []);
  }

  /** Trailing whitespace does not change the squeeze. */
  lemma SqueezeSkipsTrail(l: string)
    ensures Squeeze(l) == Squeeze(RStrip(l, Whitespace))
  {
    var r := RStrip(l, Whitespace);
    var tail := l[|r|..];
    assert l == r + tail;
    forall m | 0 <= m < |tail| ensures IsPySpace(tail[m]) {
      assert tail[m] == l[|r| + m];
    }
    SqueezedTrailingSpaces(r, tail, false, false);
  }

  /** Whitespace stripped from the ends does not change the squeeze. */
  lemma SqueezeOfStripped(s: string)
    ensures Squeeze(Strip(s, Whitespace)) == Squeeze(s)
  {
    var l := LStrip(s, Whitespace);
    StripIsBothEnds(s, Whitespace);
    SqueezeSkipsLead(s);
    SqueezeSkipsTrail(l);
  }

  /** `split()` takes the first word after the leading whitespace, then splits the rest. */
  lemma WordsStep(t: string)
    requires LStrip(t, Whitespace) != []
    ensures var u := LStrip(t, Whitespace);
      Words(t) == [u[..WordLength(u)]] + Words(u[WordLength(u)..])
  {
  }

  /**
   * `" ".join(s.split())` is the squeeze of `s`: the words `split()` returns
   * are exactly the maximal runs between whitespace.
   */
  lemma {:induction false} SqueezeIsJoinedWords(t: string)
    ensures Join(Words(t), " ") == Squeeze(t)
    decreases |t|
  {
    var u := LStrip(t, Whitespace);
    if u == [] {
      assert Words(t) == [] by { WordsEmpty(t); }
      assert Squeeze(t) == [] by { SqueezeSkipsLead(t); }
    } else {
      var n := WordLength(u);
      assert n > 0 by { assert !IsPySpace(u[0]); }
      var w, r := u[..n], u[n..];
      assert Words(t) == [w] + Words(r) by { WordsStep(t); }
      assert Squeeze(t) == w + Squeezed(r, false, true) by {
        SqueezeSkipsLead(t);
        SqueezedFromWord(u);
      }
      if LStrip(r, Whitespace) == [] {
        assert Words(r) == [] by { WordsEmpty(r); }
        assert Squeezed(r, false, true) == [] by { SqueezedAfterWord(r); }
        assert Join([w], " ") == w;
        assert w + [] == w;
      } else {
        assert Words(r) != [] by { WordsEmpty(r); }
        assert Squeezed(r, false, true) == " " + Squeeze(r) by { SqueezedAfterWord(r); }
        SqueezeIsJoinedWords(r);
        JoinCons(w, Words(r), " ");
        AppendAssoc(w, " ", Squeeze(r));
      }
    }
  }

  // ---------------------------------------------------------------------
  // Python's str.replace
  // ---------------------------------------------------------------------

  /** Python's `s.replace(pat, rep)`: every occurrence, scanning left to right without overlaps. */
  function Replace(s: string, pat: string, rep: string): string
    requires pat != []
    decreases |s|
  {
    if s == [] then []
    else if StartsWith(s, pat) then rep + Replace(s[|pat|..], pat, rep)
    else [s[0]] + Replace(s[1..], pat, rep)
  }

  /**
   * Replacing a two-character sequence by a character the string does not
   * contain is undone by replacing that character back.
   */
  lemma {:induction false} ReplaceRoundTrip(s: string, a: char, b: char, c: char)
    requires c !in s
    ensures Replace(Replace(s, [a, b], [c]), [c], [a, b]) == s
    decreases |s|
  {
    if s != [] {
      var rest := if StartsWith(s, [a, b]) then s[2..] else s[1..];
      ReplaceRoundTrip(rest, a, b, c);
      var head := if StartsWith(s, [a, b]) then [c] else [s[0]];
      assert Replace(s, [a, b], [c]) == head + Replace(rest, [a, b], [c]);
      assert (head + Replace(rest, [a, b], [c]))[1..] == Replace(rest, [a, b], [c]);
    }
  }

  /** A replacement introduces no character other than those of `rep`. */
  lemma {:induction false} ReplaceIntroducesOnly(s: string, pat: string, rep: string, d: char)
    requires pat != [] && d !in s && d !in rep
    ensures d !in Replace(s, pat, rep)
    decreases |s|
  {
    if s != [] {
      if StartsWith(s, pat) {
        ReplaceIntroducesOnly(s[|pat|..], pat, rep, d);
      } else {
        ReplaceIntroducesOnly(s[1..], pat, rep, d);
      }
    }
  }

  /** A string wrapped between a prefix and a suffix starts with the one, ends with the other and holds the string between them. */
  lemma Wrapped(a: string, m: string, b: string)
    ensures StartsWith(a + m + b, a) && EndsWith(a + m + b, b)
    ensures (a + m + b)[|a|..|a| + |m|] == m
  {
    var w := a + m + b;
    assert w[..|a|] == a;
    assert w[|w| - |b|..] == b;
  }

  /** A replacement no longer than its pattern never lengthens the string. */
  lemma {:induction false} ReplaceNoLonger(s: string, pat: string, rep: string)
    requires pat != [] && |rep| <= |pat|
    ensures |Replace(s, pat, rep)| <= |s|
    decreases |s|
  {
    if s != [] {
      if StartsWith(s, pat) {
        ReplaceNoLonger(s[|pat|..], pat, rep);
      } else {
        ReplaceNoLonger(s[1..], pat, rep);
      }
    }
  }

  /** A prefix free of the pattern's first character passes through a replacement untouched. */
  lemma {:induction false} ReplaceKeepsPrefix(p: string, s: string, pat: string, rep: string)
    requires pat != [] && pat[0] !in p
    ensures Replace(p + s, pat, rep) == p + Replace(s, pat, rep)
    decreases |p|
  {
    if p != [] {
      assert (p + s)[0] == p[0];
      assert !StartsWith(p + s, pat);
      assert (p + s)[1..] == p[1..] + s;
      ReplaceKeepsPrefix(p[1..], s, pat, rep);
    } else {
      assert p + s == s;
    }
  }

  /** A string without the pattern's first character is not changed by a replacement. */
  lemma ReplaceAbsent(w: string, pat: string, rep: string)
    requires pat != [] && pat[0] !in w
    ensures Replace(w, pat, rep) == w
  {
    ReplaceKeepsPrefix(w, [], pat, rep);
    assert w + [] == w;
  }

  // ---------------------------------------------------------------------
  // Decimal integers
  // ---------------------------------------------------------------------

  predicate IsDigit(c: char) {
    '0' <= c <= '9'
  }

  function DigitChar(d: nat): char
    requires d < 10
  {
    ('0' as int + d) as char
  }

  function DigitValue(c: char): nat
    requires IsDigit(c)
  {
    c as int - '0' as int
  }

  /** The decimal form of `n`, as Python's `str` and JavaScript's `String` print it. */
  function NatToString(n: nat): (r: string)
    ensures r != []
    ensures forall i :: 0 <= i < |r| ==> IsDigit(r[i])
    ensures n > 0 ==> r[0] != '0'
    ensures n < 10 <==> |r| == 1
    decreases n
  {
    if n < 10 then [DigitChar(n)] else NatToString(n / 10) + [DigitChar(n % 10)]
  }

  function IntToString(n: int): (r: string)
    ensures n >= 0 ==> CanonicalIndex(r) == Some(n)
    ensures n < 0 ==> r != [] && r[0] == '-'
  {
    if n < 0 then "-" + NatToString(-n)
    else CanonicalIndexInverse(NatToString(n), n); NatToString(n)
  }

  /** The number a string of decimal digits denotes. */
  function DigitsValue(s: string): nat
    requires forall i :: 0 <= i < |s| ==> IsDigit(s[i])
  {
    if s == [] then 0 else 10 * DigitsValue(s[..|s| - 1]) + DigitValue(s[|s| - 1])
  }

  lemma {:induction false} DigitsValueOfNatToString(n: nat)
    ensures DigitsValue(NatToString(n)) == n
    decreases n
  {
    if n >= 10 {
      DigitsValueOfNatToString(n / 10);
      var r := NatToString(n);
      assert r[..|r| - 1] == NatToString(n / 10);
    }
  }

  lemma {:induction false} DigitsValuePositive(s: string)
    requires s != [] && forall i :: 0 <= i < |s| ==> IsDigit(s[i])
    requires s[0] != '0'
    ensures DigitsValue(s) >= 1
    decreases |s|
  {
    if |s| > 1 {
      DigitsValuePositive(s[..|s| - 1]);
    }
  }

  /**
   * The canonical decimal form JavaScript accepts as an array index: digits
   * only, and no leading zero except in "0" itself.
   */
  predicate IsCanonicalIndex(s: string) {
    s != [] && (forall i :: 0 <= i < |s| ==> IsDigit(s[i])) && (s[0] != '0' || |s| == 1)
  }

  function CanonicalIndex(s: string): Option<nat> {
    if IsCanonicalIndex(s) then Some(DigitsValue(s)) else None
  }

  /** A property key denotes array index `n` exactly when it is `n` printed in decimal. */
  lemma {:induction false} CanonicalIndexInverse(s: string, n: nat)
    ensures CanonicalIndex(s) == Some(n) <==> s == NatToString(n)
    decreases |s|
  {
    if s == NatToString(n) {
      DigitsValueOfNatToString(n);
    }
    if CanonicalIndex(s) == Some(n) {
      if |s| == 1 {
        assert s[..|s| - 1] == [];
        assert DigitsValue(s) == 10 * DigitsValue(s[..|s| - 1]) + DigitValue(s[0]);
        assert n == DigitValue(s[0]) < 10;
        assert [DigitChar(n)] == s;
      } else {
        var p := s[..|s| - 1];
        DigitsValuePositive(p);
        assert n >= 10;
        CanonicalIndexInverse(p, n / 10);
        assert s == p + [s[|s| - 1]];
      }
    }
  }
}
