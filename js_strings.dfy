/** The parts of JavaScript's string semantics the modelled code relies on:
    `endsWith`, `indexOf`, `replace` with a string pattern (first occurrence
    only) and with a global literal pattern (every occurrence), the `$`
    patterns of a replacement string, `split` and `join`, `trim`, the decimal
    text of a small non-negative integer, and the default `sort` order. */
module JsStrings {

  import opened Wrappers

  /** `s.endsWith(suffix)` */
  predicate EndsWith(s: string, suffix: string) {
    |suffix| <= |s| && s[|s| - |suffix|..] == suffix
  }

  /** `pat` occurs in `s` at position `i`. */
  predicate OccursAt(s: string, pat: string, i: nat) {
    i + |pat| <= |s| && s[i..i + |pat|] == pat
  }

  /** `s.indexOf(pat, from)`: the first occurrence at or after `from`. */
  function IndexOf(s: string, pat: string, from: nat): (r: Option<nat>)
    requires from <= |s|
    ensures r.Some? ==> from <= r.value && OccursAt(s, pat, r.value)
    ensures r.Some? ==> forall j | from <= j < r.value :: !OccursAt(s, pat, j)
    ensures r.None? ==> forall j | from <= j :: !OccursAt(s, pat, j)
    decreases |s| - from
  {
    if OccursAt(s, pat, from) then Some(from)
    else if from + |pat| >= |s| then None
    else IndexOf(s, pat, from + 1)
  }

  /** GetSubstitution (section 22.1.3.19.1 of ECMA-262) for a match without
      capture groups: `$$` gives `$`, `$&` the matched text, `` $` `` the text
      before the match, `$'` the text after it; every other `$` is literal. */
  function Substitute(matched: string, str: string, position: nat, rep: string): string
    requires position + |matched| <= |str|
    decreases |rep|
  {
    if |rep| == 0 then ""
    else if rep[0] == '$' && |rep| >= 2 && rep[1] == '$' then
      "$" + Substitute(matched, str, position, rep[2..])
    else if rep[0] == '$' && |rep| >= 2 && rep[1] == '&' then
      matched + Substitute(matched, str, position, rep[2..])
    else if rep[0] == '$' && |rep| >= 2 && rep[1] == '`' then
      str[..position] + Substitute(matched, str, position, rep[2..])
    else if rep[0] == '$' && |rep| >= 2 && rep[1] == '\'' then
      str[position + |matched|..] + Substitute(matched, str, position, rep[2..])
    else
      [rep[0]] + Substitute(matched, str, position, rep[1..])
  }

  /** A replacement without `$` is inserted verbatim. */
  lemma {:induction false} SubstituteLiteral(matched: string, str: string, position: nat, rep: string)
    requires position + |matched| <= |str|
    requires '$' !in rep
    ensures Substitute(matched, str, position, rep) == rep
  {
    if |rep| > 0 {
      assert rep[0] != '$';
      assert forall c | c in rep[1..] :: c in rep;
      SubstituteLiteral(matched, str, position, rep[1..]);
      assert rep == [rep[0]] + rep[1..];
    }
  }

  /** `s.replace(pat, rep)` with a string pattern: only the first occurrence
      of `pat` is replaced. */
  function ReplaceFirst(s: string, pat: string, rep: string): string {
    match IndexOf(s, pat, 0)
    case None => s
    case Some(i) => s[..i] + Substitute(pat, s, i, rep) + s[i + |pat|..]
  }

  /** With a `$`-free replacement, `replace` splices `rep` in at the first
      occurrence and leaves the text after it untouched (later occurrences
      included); without an occurrence the string is unchanged. */
  lemma ReplaceFirstLiteral(s: string, pat: string, rep: string)
    requires '$' !in rep
    ensures IndexOf(s, pat, 0).None? ==> ReplaceFirst(s, pat, rep) == s
    ensures IndexOf(s, pat, 0).Some? ==>
      var i := IndexOf(s, pat, 0).value;
      && ReplaceFirst(s, pat, rep) == s[..i] + rep + s[i + |pat|..]
      && (forall j | 0 <= j < i :: !OccursAt(s, pat, j))
  {
    if IndexOf(s, pat, 0).Some? {
      SubstituteLiteral(pat, s, IndexOf(s, pat, 0).value, rep);
    }
  }

  /** `s.replace(/pat/g, rep)` for a non-empty literal pattern: scans left to
      right and replaces every non-overlapping occurrence from `from` on. */
  function ReplaceAllFrom(s: string, pat: string, rep: string, from: nat): string
    requires |pat| > 0 && from <= |s|
    decreases |s| - from
  {
    match IndexOf(s, pat, from)
    case None => s[from..]
    case Some(i) => s[from..i] + Substitute(pat, s, i, rep) + ReplaceAllFrom(s, pat, rep, i + |pat|)
  }

  function ReplaceAll(s: string, pat: string, rep: string): string
    requires |pat| > 0
  {
    ReplaceAllFrom(s, pat, rep, 0)
  }

  /** `s.split(sep)` for a non-empty separator. */
  function SplitFrom(s: string, sep: string, from: nat): (parts: seq<string>)
    requires |sep| > 0 && from <= |s|
    ensures |parts| >= 1
    decreases |s| - from
  {
    match IndexOf(s, sep, from)
    case None => [s[from..]]
    case Some(i) => [s[from..i]] + SplitFrom(s, sep, i + |sep|)
  }

  function Split(s: string, sep: string): seq<string>
    requires |sep| > 0
  {
    SplitFrom(s, sep, 0)
  }

  /** `parts.join(sep)` */
  function Join(parts: seq<string>, sep: string): string {
    if |parts| == 0 then ""
    else if |parts| == 1 then parts[0]
    else parts[0] + sep + Join(parts[1..], sep)
  }

  /** `s` contains no occurrence of `pat`. */
  predicate Free(s: string, pat: string) {
    forall j | 0 <= j <= |s| :: !OccursAt(s, pat, j)
  }

  /** Splitting and joining with the same separator gives the string back. */
  lemma {:induction false} SplitJoin(s: string, sep: string, from: nat)
    requires |sep| > 0 && from <= |s|
    ensures Join(SplitFrom(s, sep, from), sep) == s[from..]
    decreases |s| - from
  {
    match IndexOf(s, sep, from)
    case None =>
      assert SplitFrom(s, sep, from) == [s[from..]];
    case Some(i) =>
      SplitJoin(s, sep, i + |sep|);
      SplitJoinStep(s, sep, from, i);
  }

  lemma SplitJoinStep(s: string, sep: string, from: nat, i: nat)
    requires |sep| > 0 && from <= |s| && IndexOf(s, sep, from) == Some(i)
    requires Join(SplitFrom(s, sep, i + |sep|), sep) == s[i + |sep|..]
    ensures Join(SplitFrom(s, sep, from), sep) == s[from..]
  {
    var rest := SplitFrom(s, sep, i + |sep|);
    assert SplitFrom(s, sep, from) == [s[from..i]] + rest;
    JoinCons(s[from..i], rest, sep);
    PieceThenRest(s, sep, from, i, Join(rest, sep));
  }

  lemma JoinCons(a: string, rest: seq<string>, sep: string)
    requires |rest| >= 1
    ensures Join([a] + rest, sep) == a + sep + Join(rest, sep)
  {
    assert ([a] + rest)[1..] == rest;
  }

  /** The text before an occurrence, the occurrence and the text after it
      make up the whole. */
  lemma PieceThenRest(s: string, sep: string, from: nat, i: nat, t: string)
    requires from <= i && i + |sep| <= |s| && s[i..i + |sep|] == sep
    requires t == s[i + |sep|..]
    ensures s[from..i] + sep + t == s[from..]
  {
    assert s[from..] == s[from..i] + s[i..i + |sep|] + s[i + |sep|..];
  }

  /** No piece of a split contains the separator. */
  lemma {:induction false} SplitPiecesFree(s: string, sep: string, from: nat)
    requires |sep| > 0 && from <= |s|
    ensures forall p | p in SplitFrom(s, sep, from) :: Free(p, sep)
    decreases |s| - from
  {
    match IndexOf(s, sep, from)
    case None =>
      FreeSuffix(s, sep, from, |s|);
      assert s[from..] == s[from..|s|];
    case Some(i) =>
      SplitPiecesFree(s, sep, i + |sep|);
      FreeSuffix(s, sep, from, i);
  }

  /** A stretch of `s` in which no occurrence of a non-empty pattern starts
      is free of the pattern. */
  lemma FreeSuffix(s: string, pat: string, from: nat, to: nat)
    requires |pat| > 0 && from <= to <= |s|
    requires forall j | from <= j < to :: !OccursAt(s, pat, j)
    ensures Free(s[from..to], pat)
  {
    var p := s[from..to];
    forall j | 0 <= j <= |p| ensures !OccursAt(p, pat, j) {
      if OccursAt(p, pat, j) {
        var a, b := p[j..j + |pat|], s[from + j..from + j + |pat|];
        forall k | 0 <= k < |pat| ensures a[k] == b[k] {
          assert a[k] == p[j + k] == s[from + j + k];
        }
        assert a == b;
        assert OccursAt(s, pat, from + j);
      }
    }
  }

  /** Replacing every occurrence with a `$`-free replacement is splitting at
      the pattern and joining with the replacement. */
  lemma {:induction false} ReplaceAllIsSplitJoin(s: string, pat: string, rep: string, from: nat)
    requires |pat| > 0 && from <= |s|
    requires '$' !in rep
    ensures ReplaceAllFrom(s, pat, rep, from) == Join(SplitFrom(s, pat, from), rep)
    decreases |s| - from
  {
    match IndexOf(s, pat, from)
    case None =>
    case Some(i) =>
      ReplaceAllIsSplitJoin(s, pat, rep, i + |pat|);
      SubstituteLiteral(pat, s, i, rep);
      var rest := SplitFrom(s, pat, i + |pat|);
      assert SplitFrom(s, pat, from) == [s[from..i]] + rest;
      JoinCons(s[from..i], rest, rep);
  }

  /** WhiteSpace and LineTerminator code points (sections 12.2 and 12.3 of
      ECMA-262), which `trim` and `parseInt` skip. */
  predicate IsWhiteSpace(c: char) {
    || c == '\U{9}' || c == '\U{A}' || c == '\U{B}' || c == '\U{C}' || c == '\U{D}'
    || c == '\U{20}' || c == '\U{A0}' || c == '\U{1680}' || ('\U{2000}' <= c <= '\U{200A}')
    || c == '\U{2028}' || c == '\U{2029}' || c == '\U{202F}' || c == '\U{205F}'
    || c == '\U{3000}' || c == '\U{FEFF}'
  }

  function TrimStart(s: string): (r: string)
    ensures |r| <= |s| && r == s[|s| - |r|..]
    ensures forall i | 0 <= i < |s| - |r| :: IsWhiteSpace(s[i])
    ensures r == [] || !IsWhiteSpace(r[0])
  {
    if |s| > 0 && IsWhiteSpace(s[0]) then TrimStart(s[1..]) else s
  }

  function TrimEnd(s: string): (r: string)
    ensures |r| <= |s| && r == s[..|r|]
    ensures forall i | |r| <= i < |s| :: IsWhiteSpace(s[i])
    ensures r == [] || !IsWhiteSpace(r[|r| - 1])
  {
    if |s| > 0 && IsWhiteSpace(s[|s| - 1]) then TrimEnd(s[..|s| - 1]) else s
  }

  /** `s.trim()`: the stretch of `s` between its leading and trailing white
      space. */
  function Trim(s: string): (r: string)
    ensures exists a: nat, b: nat ::
      (&& a <= b <= |s| && r == s[a..b]
       && (forall i | 0 <= i < a :: IsWhiteSpace(s[i]))
       && (forall i | b <= i < |s| :: IsWhiteSpace(s[i])))
    ensures r == [] || (!IsWhiteSpace(r[0]) && !IsWhiteSpace(r[|r| - 1]))
  {
    var t := TrimStart(s);
    var r := TrimEnd(t);
    TrimBounds(s, t, r);
    r
  }

  /** Where the trimmed text sits in `s`: `t` is a suffix of `s` after
      white space, and `r` a prefix of `t` before white space. */
  lemma TrimBounds(s: string, t: string, r: string)
    requires |t| <= |s| && t == s[|s| - |t|..] && forall i | 0 <= i < |s| - |t| :: IsWhiteSpace(s[i])
    requires |r| <= |t| && r == t[..|r|] && forall i | |r| <= i < |t| :: IsWhiteSpace(t[i])
    ensures var a := |s| - |t|;
      && a <= a + |r| <= |s| && r == s[a..a + |r|]
      && (forall i | 0 <= i < a :: IsWhiteSpace(s[i]))
      && (forall i | a + |r| <= i < |s| :: IsWhiteSpace(s[i]))
  {
    var a := |s| - |t|;
    forall k | 0 <= k < |r| ensures r[k] == s[a + k] {
      assert r[k] == t[k];
    }
    assert r == s[a..a + |r|];
    forall i | a + |r| <= i < |s| ensures IsWhiteSpace(s[i]) {
      assert s[i] == t[i - a];
    }
  }

  /** Only white space trims to the empty string. */
  lemma TrimEmpty(s: string)
    ensures Trim(s) == [] <==> forall i | 0 <= i < |s| :: IsWhiteSpace(s[i])
  {
    if forall i | 0 <= i < |s| :: IsWhiteSpace(s[i]) {
      TrimStartAllWhite(s);
    }
  }

  lemma {:induction false} TrimStartAllWhite(s: string)
    requires forall i | 0 <= i < |s| :: IsWhiteSpace(s[i])
    ensures TrimStart(s) == []
  {
    if |s| > 0 {
      TrimStartAllWhite(s[1..]);
    }
  }

  predicate IsDigit(c: char) {
    '0' <= c <= '9'
  }

  function DigitChar(d: nat): (c: char)
    requires d < 10
    ensures IsDigit(c)
  {
    ['0', '1', '2', '3', '4', '5', '6', '7', '8', '9'][d]
  }

  /** The decimal text of a non-negative integer, as template literals print
      it (no sign, no leading zeros). */
  function Decimal(n: nat): (r: string)
    ensures |r| >= 1
    ensures n < 10 <==> |r| == 1
    ensures forall i | 0 <= i < |r| :: IsDigit(r[i])
    decreases n
  {
    if n < 10 then [DigitChar(n)] else Decimal(n / 10) + [DigitChar(n % 10)]
  }

  /** Distinct numbers have distinct decimal texts. */
  lemma {:induction false} DecimalInjective(m: nat, n: nat)
    requires Decimal(m) == Decimal(n)
    ensures m == n
    decreases m
  {
    if m >= 10 && n >= 10 {
      var dm, dn := Decimal(m), Decimal(n);
      assert dm[|dm| - 1] == DigitChar(m % 10);
      assert dn[|dn| - 1] == DigitChar(n % 10);
      assert m % 10 == n % 10;
      assert dm[..|dm| - 1] == Decimal(m / 10);
      assert dn[..|dn| - 1] == Decimal(n / 10);
      DecimalInjective(m / 10, n / 10);
    }
  }

  /** The length of the run of digits `s` starts with. */
  function DigitRun(s: string): nat {
    if |s| == 0 || !IsDigit(s[0]) then 0 else 1 + DigitRun(s[1..])
  }

  lemma {:induction false} DigitRunIsDigits(s: string)
    ensures DigitRun(s) <= |s|
    ensures forall i | 0 <= i < DigitRun(s) :: IsDigit(s[i])
  {
    if |s| > 0 && IsDigit(s[0]) {
      DigitRunIsDigits(s[1..]);
    }
  }

  /** The decimal value of a run of digits. */
  function DigitValue(c: char): nat
    requires IsDigit(c)
  {
    (c as int - '0' as int) as nat
  }

  function ParseDecimal(s: string): nat
    requires forall i | 0 <= i < |s| :: IsDigit(s[i])
    decreases |s|
  {
    if |s| == 0 then 0 else ParseDecimal(s[..|s| - 1]) * 10 + DigitValue(s[|s| - 1])
  }

  lemma {:induction false} ParseDecimalOf(n: nat)
    ensures ParseDecimal(Decimal(n)) == n
    decreases n
  {
    var d := Decimal(n);
    if n >= 10 {
      ParseDecimalOf(n / 10);
      assert d[..|d| - 1] == Decimal(n / 10);
      assert DigitValue(DigitChar(n % 10)) == n % 10 by {
        var k := n % 10;
        assert k == 0 || k == 1 || k == 2 || k == 3 || k == 4 || k == 5 || k == 6 || k == 7 || k == 8 || k == 9;
      }
    } else {
      assert n == 0 || n == 1 || n == 2 || n == 3 || n == 4 || n == 5 || n == 6 || n == 7 || n == 8 || n == 9;
    }
  }

  /** The text after an optional leading sign. */
  function Unsigned(t: string): string {
    if |t| > 0 && (t[0] == '-' || t[0] == '+') then t[1..] else t
  }

  /** The value of the run of digits `s` starts with; `None` without one. */
  function LeadingNumber(s: string): Option<nat> {
    var k := DigitRun(s);
    if k == 0 then None
    else
      DigitRunIsDigits(s);
      Some(ParseDecimal(s[..k]))
  }

  /** `parseInt(s, 10)`: leading white space is skipped, then an optional
      sign, then the longest run of decimal digits; `None` stands for `NaN`
      (no digit after the sign). */
  function ParseInt(s: string): Option<int> {
    var t := TrimStart(s);
    match LeadingNumber(Unsigned(t))
    case None => None
    case Some(v) => Some(if |t| > 0 && t[0] == '-' then -(v as int) else v)
  }

  lemma {:induction false} DigitRunOf(d: string, u: string)
    requires forall i | 0 <= i < |d| :: IsDigit(d[i])
    requires u == [] || !IsDigit(u[0])
    ensures DigitRun(d + u) == |d|
  {
    if |d| == 0 {
      assert d + u == u;
    } else {
      assert (d + u)[1..] == d[1..] + u;
      DigitRunOf(d[1..], u);
    }
  }

  /** A number's decimal text followed by text that is empty or starts
      with a non-digit can be split back into the two. */
  lemma DecimalThenText(m: nat, n: nat, u: string, v: string)
    requires u == [] || !IsDigit(u[0])
    requires v == [] || !IsDigit(v[0])
    requires Decimal(m) + u == Decimal(n) + v
    ensures m == n && u == v
  {
    var dm, dn := Decimal(m), Decimal(n);
    DigitRunOf(dm, u);
    DigitRunOf(dn, v);
    assert dm == (dm + u)[..|dm|];
    assert dn == (dn + v)[..|dn|];
    DecimalInjective(m, n);
    assert u == (dm + u)[|dm|..];
    assert v == (dn + v)[|dn|..];
  }

  /** A number's decimal text, signed or not and followed by anything that
      does not start with a digit, parses back to the number. */
  lemma LeadingNumberOf(n: nat, u: string)
    requires u == [] || !IsDigit(u[0])
    ensures LeadingNumber(Decimal(n) + u) == Some(n)
  {
    var d := Decimal(n);
    DigitRunOf(d, u);
    assert (d + u)[..|d|] == d;
    ParseDecimalOf(n);
  }

  lemma ParseIntOfDecimal(sign: string, n: nat, u: string)
    requires sign == "" || sign == "-" || sign == "+"
    requires u == [] || !IsDigit(u[0])
    ensures ParseInt(sign + (Decimal(n) + u)) == Some(if sign == "-" then -(n as int) else n)
  {
    LeadingNumberOf(n, u);
    ParseIntOfNumber(sign, Decimal(n) + u, n);
  }

  lemma ParseIntOfNumber(sign: string, body: string, n: nat)
    requires sign == "" || sign == "-" || sign == "+"
    requires |body| > 0 && IsDigit(body[0]) && LeadingNumber(body) == Some(n)
    ensures ParseInt(sign + body) == Some(if sign == "-" then -(n as int) else n)
  {
    SignedText(sign, body);
    var t := TrimStart(sign + body);
    assert t == sign + body && Unsigned(t) == body;
    assert |t| > 0 && t[0] == '-' <==> sign == "-";
  }

  /** Text that starts with a sign or a digit is not trimmed, and its sign
      is dropped before the digits are read. */
  lemma SignedText(sign: string, body: string)
    requires sign == "" || sign == "-" || sign == "+"
    requires |body| > 0 && IsDigit(body[0])
    ensures TrimStart(sign + body) == sign + body
    ensures Unsigned(sign + body) == body
    ensures (sign + body)[0] == '-' <==> sign == "-"
  {
    if sign == "" {
      assert sign + body == body;
      UnsignedText(body);
    } else if sign == "-" {
      MinusText(body);
    } else {
      PlusText(body);
    }
  }

  lemma UnsignedText(body: string)
    requires |body| > 0 && IsDigit(body[0])
    ensures TrimStart(body) == body && Unsigned(body) == body && body[0] != '-'
  {
    NotTrimmed(body);
  }

  lemma MinusText(body: string)
    ensures TrimStart("-" + body) == "-" + body && Unsigned("-" + body) == body && ("-" + body)[0] == '-'
  {
    var t := "-" + body;
    assert t[0] == '-' && t[1..] == body;
    NotTrimmed(t);
  }

  lemma PlusText(body: string)
    ensures TrimStart("+" + body) == "+" + body && Unsigned("+" + body) == body && ("+" + body)[0] == '+'
  {
    var t := "+" + body;
    assert t[0] == '+' && t[1..] == body;
    NotTrimmed(t);
  }

  /** Text that starts with a sign or a digit is left alone by `TrimStart`. */
  lemma NotTrimmed(t: string)
    requires |t| > 0 && (IsDigit(t[0]) || t[0] == '-' || t[0] == '+')
    ensures TrimStart(t) == t
  {
    assert !IsWhiteSpace(t[0]);
  }

  /** Text with no digit after the optional sign parses to `NaN`. */
  lemma ParseIntNoDigits(s: string)
    requires forall i | 0 <= i < |s| :: !IsDigit(s[i])
    ensures ParseInt(s) == None
  {
    var t := TrimStart(s);
    if |t| > 0 {
      assert t[0] == s[|s| - |t|];
    }
    if |t| > 1 {
      assert t[1] == s[|s| - |t| + 1];
    }
  }

  /** The default order of `Array.prototype.sort` on strings: lexicographic
      on characters, a proper prefix first. */
  predicate LexLe(a: string, b: string)
    decreases |a|
  {
    if |a| == 0 then true
    else if |b| == 0 then false
    else if a[0] == b[0] then LexLe(a[1..], b[1..])
    else a[0] < b[0]
  }

  lemma {:induction false} LexLeTotal(a: string, b: string)
    ensures LexLe(a, b) || LexLe(b, a)
    decreases |a|
  {
    if |a| > 0 && |b| > 0 && a[0] == b[0] {
      LexLeTotal(a[1..], b[1..]);
    }
  }

  lemma {:induction false} LexLeTransitive(a: string, b: string, c: string)
    requires LexLe(a, b) && LexLe(b, c)
    ensures LexLe(a, c)
    decreases |a|
  {
    if |a| > 0 && |b| > 0 && |c| > 0 && a[0] == b[0] && b[0] == c[0] {
      LexLeTransitive(a[1..], b[1..], c[1..]);
    }
  }

  lemma {:induction false} LexLeAntisymmetric(a: string, b: string)
    requires LexLe(a, b) && LexLe(b, a)
    ensures a == b
    decreases |a|
  {
    if |a| > 0 && |b| > 0 {
      LexLeAntisymmetric(a[1..], b[1..]);
      assert a == [a[0]] + a[1..] && b == [b[0]] + b[1..];
    }
  }

  /** In a sorted list of strings the first one precedes every other. */
  lemma {:induction false} SortedFirstLeast(s: seq<string>, j: nat)
    requires SortedBy(s, LexLe) && j < |s|
    ensures LexLe(s[0], s[j])
  {
    if j == 0 {
      LexLeTotal(s[0], s[0]);
    } else {
      SortedFirstLeast(s, j - 1);
      LexLeTransitive(s[0], s[j - 1], s[j]);
    }
  }

  /** Two sorted lists of the same strings start with the same string. */
  lemma SortedHeadsEqual(a: seq<string>, b: seq<string>)
    requires SortedBy(a, LexLe) && SortedBy(b, LexLe)
    requires multiset(a) == multiset(b) && |a| > 0
    ensures |b| > 0 && a[0] == b[0]
  {
    assert a[0] in multiset(b);
    var j :| 0 <= j < |b| && b[j] == a[0];
    assert b[0] in multiset(a);
    var i :| 0 <= i < |a| && a[i] == b[0];
    SortedFirstLeast(a, i);
    SortedFirstLeast(b, j);
    LexLeAntisymmetric(a[0], b[0]);
  }

  lemma TailsSameStrings(a: seq<string>, b: seq<string>)
    requires multiset(a) == multiset(b) && |a| > 0 && |b| > 0 && a[0] == b[0]
    ensures multiset(a[1..]) == multiset(b[1..])
  {
    assert a == [a[0]] + a[1..];
    assert b == [b[0]] + b[1..];
    assert multiset(a) == multiset{a[0]} + multiset(a[1..]);
    assert multiset(b) == multiset{a[0]} + multiset(b[1..]);
    assert multiset(a[1..]) == multiset(a) - multiset{a[0]};
    assert multiset(b[1..]) == multiset(b) - multiset{a[0]};
  }

  /** Strings have only one sorted arrangement: any sort of the same strings
      under the default order gives the same list, stable or not. */
  lemma {:induction false} SortedStringsUnique(a: seq<string>, b: seq<string>)
    requires SortedBy(a, LexLe) && SortedBy(b, LexLe)
    requires multiset(a) == multiset(b)
    ensures a == b
    decreases |a|
  {
    if |a| == 0 {
      assert |multiset(b)| == 0;
    } else {
      SortedHeadsEqual(a, b);
      TailsSameStrings(a, b);
      SortedStringsUnique(a[1..], b[1..]);
      assert a == [a[0]] + a[1..] && b == [b[0]] + b[1..];
    }
  }

  ghost predicate Total<T(!new)>(le: (T, T) -> bool) {
    forall a, b :: le(a, b) || le(b, a)
  }

  /** Each element is ordered before its successor. */
  ghost predicate SortedBy<T>(s: seq<T>, le: (T, T) -> bool) {
    forall i | 0 <= i < |s| - 1 :: le(s[i], s[i + 1])
  }

  /** Inserts `x` after every element that does not strictly follow it, which
      keeps equal elements in their original order. */
  function Insert<T>(x: T, s: seq<T>, le: (T, T) -> bool): (r: seq<T>)
    ensures multiset(r) == multiset(s) + multiset{x}
    ensures |r| == |s| + 1
    ensures r[0] == x || (|s| > 0 && r[0] == s[0])
  {
    if |s| == 0 then [x]
    else if le(x, s[0]) && !le(s[0], x) then [x] + s
    else
      assert s == [s[0]] + s[1..];
      [s[0]] + Insert(x, s[1..], le)
  }

  /** A stable sort: insertion sort of `s` under `le`. */
  function SortBy<T>(s: seq<T>, le: (T, T) -> bool): (r: seq<T>)
    ensures multiset(r) == multiset(s)
    ensures |r| == |s|
  {
    if |s| == 0 then []
    else
      assert s == s[..|s| - 1] + [s[|s| - 1]];
      Insert(s[|s| - 1], SortBy(s[..|s| - 1], le), le)
  }

  lemma {:induction false} InsertSorted<T(!new)>(x: T, s: seq<T>, le: (T, T) -> bool)
    requires Total(le) && SortedBy(s, le)
    ensures SortedBy(Insert(x, s, le), le)
  {
    if |s| > 0 && !(le(x, s[0]) && !le(s[0], x)) {
      InsertSorted(x, s[1..], le);
    }
  }

  /** The sorted result is ordered and a permutation of the input. */
  lemma {:induction false} SortByCorrect<T(!new)>(s: seq<T>, le: (T, T) -> bool)
    requires Total(le)
    ensures SortedBy(SortBy(s, le), le)
    ensures multiset(SortBy(s, le)) == multiset(s)
  {
    if |s| > 0 {
      SortByCorrect(s[..|s| - 1], le);
      InsertSorted(s[|s| - 1], SortBy(s[..|s| - 1], le), le);
    }
  }

  lemma LexLeIsTotal()
    ensures Total(LexLe)
  {
    forall a: string, b: string ensures LexLe(a, b) || LexLe(b, a) {
      LexLeTotal(a, b);
    }
  }
}
