/** String operations of PHP and JavaScript that the plugin relies on, written
    out over `seq<char>`. One `char` stands for one byte of a PHP string. */
module Text {
  import opened Wrappers

  predicate StartsWith(s: string, p: string) {
    |p| <= |s| && s[..|p|] == p
  }

  predicate EndsWith(s: string, p: string) {
    |p| <= |s| && s[|s| - |p|..] == p
  }

  /** `p` occurs in `s` at position `j`. */
  predicate MatchAt(s: string, p: string, j: int) {
    0 <= j && j + |p| <= |s| && s[j..j + |p|] == p
  }

  lemma MatchAtTail(s: string, p: string, j: int)
    requires s != [] && 1 <= j
    ensures MatchAt(s, p, j) <==> MatchAt(s[1..], p, j - 1)
  {
    if j + |p| <= |s| {
      var a := s[j..j + |p|];
      var b := s[1..][j - 1..j - 1 + |p|];
      forall k | 0 <= k < |p|
        ensures a[k] == b[k]
      {
      }
      assert a == b;
    }
  }

  /** The first position at which `p` occurs in `s` (JavaScript `indexOf`). */
  function IndexOf(s: string, p: string): (r: Option<nat>)
    ensures r.Some? ==> MatchAt(s, p, r.value)
    ensures r.Some? ==> forall j :: 0 <= j < r.value ==> !MatchAt(s, p, j)
    ensures r.None? ==> forall j :: !MatchAt(s, p, j)
    decreases |s|
  {
    if StartsWith(s, p) then Some(0)
    else if |s| <= |p| then
      assert forall j :: MatchAt(s, p, j) ==> j == 0;
      None
    else
      match IndexOf(s[1..], p)
      case None =>
        assert forall j :: 1 <= j ==> !MatchAt(s, p, j) by {
          forall j | 1 <= j { MatchAtTail(s, p, j); }
        }
        None
      case Some(i) =>
        assert forall j :: 1 <= j <= i + 1 ==> (MatchAt(s, p, j) <==> MatchAt(s[1..], p, j - 1)) by {
          forall j | 1 <= j <= i + 1 { MatchAtTail(s, p, j); }
        }
        Some(i + 1)
  }

  /** JavaScript `includes` for a string argument. */
  predicate Contains(s: string, p: string) {
    IndexOf(s, p).Some?
  }

  /** The text JavaScript's `replace` inserts for a match of `matched`
      between `before` and `after` when the pattern is a string (the
      ECMAScript GetSubstitution operation with no capture groups): `$$`
      gives `$`, `$&` the match, `` $` `` the text before it, `$'` the text
      after it; every other `$` is copied as it stands. */
  function Substitution(r: string, matched: string, before: string, after: string): string
    decreases |r|
  {
    if r == [] then []
    else if r[0] == '$' && |r| >= 2 && r[1] == '$' then "$" + Substitution(r[2..], matched, before, after)
    else if r[0] == '$' && |r| >= 2 && r[1] == '&' then matched + Substitution(r[2..], matched, before, after)
    else if r[0] == '$' && |r| >= 2 && r[1] == '`' then before + Substitution(r[2..], matched, before, after)
    else if r[0] == '$' && |r| >= 2 && r[1] == '\'' then after + Substitution(r[2..], matched, before, after)
    else [r[0]] + Substitution(r[1..], matched, before, after)
  }

  /** A replacement without `$` is inserted as it stands. */
  lemma {:induction false} SubstitutionLiteral(r: string, matched: string, before: string, after: string)
    requires '$' !in r
    ensures Substitution(r, matched, before, after) == r
    decreases |r|
  {
    if r != [] {
      assert r[0] != '$';
      assert '$' !in r[1..] by {
        forall k | 0 <= k < |r[1..]| ensures r[1..][k] != '$' { assert r[1..][k] == r[k + 1]; }
      }
      SubstitutionLiteral(r[1..], matched, before, after);
      assert r == [r[0]] + r[1..];
    }
  }

  /** A `$`-free head is copied and the rest substituted on its own. */
  lemma {:induction false} SubstitutionPrefix(a: string, r: string, matched: string, before: string, after: string)
    requires '$' !in a
    ensures Substitution(a + r, matched, before, after) == a + Substitution(r, matched, before, after)
    decreases |a|
  {
    if a != [] {
      assert (a + r)[0] == a[0];
      assert (a + r)[1..] == a[1..] + r;
      assert '$' !in a[1..] by {
        forall k | 0 <= k < |a[1..]| ensures a[1..][k] != '$' { assert a[1..][k] == a[k + 1]; }
      }
      assert a[0] != '$';
      assert Substitution(a + r, matched, before, after)
        == [a[0]] + Substitution(a[1..] + r, matched, before, after);
      SubstitutionPrefix(a[1..], r, matched, before, after);
      assert a == [a[0]] + a[1..];
    } else {
      assert a + r == r;
    }
  }

  /** `$$` between two `$`-free pieces becomes a single `$`. */
  lemma SubstitutionDollarPair(a: string, b: string, matched: string, before: string, after: string)
    requires '$' !in a && '$' !in b
    ensures Substitution(a + "$$" + b, matched, before, after) == a + "$" + b
  {
    var r := "$$" + b;
    assert a + "$$" + b == a + r;
    SubstitutionPrefix(a, r, matched, before, after);
    assert r[0] == '$' && r[1] == '$' && r[2..] == b;
    SubstitutionLiteral(b, matched, before, after);
    assert Substitution(r, matched, before, after) == "$" + b;
  }

  /** JavaScript `String.prototype.replace` with a string pattern: only the
      first occurrence is replaced, by the replacement's substitution. */
  function ReplaceFirst(s: string, p: string, r: string): (t: string)
    ensures !Contains(s, p) ==> t == s
    ensures Contains(s, p) ==>
      var i := IndexOf(s, p).value;
      t == s[..i] + Substitution(r, p, s[..i], s[i + |p|..]) + s[i + |p|..]
  {
    match IndexOf(s, p)
    case None => s
    case Some(i) => s[..i] + Substitution(r, p, s[..i], s[i + |p|..]) + s[i + |p|..]
  }

  /** JavaScript `.length`: UTF-16 code units, two for a character outside
      the Basic Multilingual Plane. */
  function Utf16Length(s: string): nat
    decreases |s|
  {
    if s == [] then 0 else (if s[0] as int >= 0x10000 then 2 else 1) + Utf16Length(s[1..])
  }

  /** Every character takes one or two code units. */
  lemma {:induction false} Utf16LengthBounds(s: string)
    ensures |s| <= Utf16Length(s) <= 2 * |s|
    decreases |s|
  {
    if s != [] {
      Utf16LengthBounds(s[1..]);
    }
  }

  /** Replacing with `$$` between two `$`-free pieces inserts a single `$`. */
  lemma ReplaceFirstDollarPair(s: string, p: string, a: string, b: string)
    requires Contains(s, p) && '$' !in a && '$' !in b
    ensures var i := IndexOf(s, p).value;
      ReplaceFirst(s, p, a + "$$" + b) == s[..i] + (a + "$" + b) + s[i + |p|..]
  {
    var i := IndexOf(s, p).value;
    SubstitutionDollarPair(a, b, p, s[..i], s[i + |p|..]);
  }

  /** Characters outside the Basic Multilingual Plane take two code units each. */
  lemma {:induction false} Utf16LengthAstral(s: string)
    requires forall k :: 0 <= k < |s| ==> s[k] as int >= 0x10000
    ensures Utf16Length(s) == 2 * |s|
    decreases |s|
  {
    if s != [] {
      assert s[0] as int >= 0x10000;
      forall k | 0 <= k < |s[1..]| ensures s[1..][k] as int >= 0x10000 { assert s[1..][k] == s[k + 1]; }
      Utf16LengthAstral(s[1..]);
    }
  }

  /** A string placed between two others is found. */
  lemma ContainsMiddle(a: string, p: string, b: string)
    ensures Contains(a + p + b, p)
  {
    assert (a + p + b)[|a|..|a| + |p|] == p;
    assert MatchAt(a + p + b, p, |a|);
  }

  /** PHP `str_replace` on one subject: a left-to-right scan that replaces
      every non-overlapping occurrence of `p`; an empty `p` changes nothing. */
  function ReplaceAll(s: string, p: string, r: string): string
    decreases |s|
  {
    if p == [] || s == [] then s
    else if StartsWith(s, p) then r + ReplaceAll(s[|p|..], p, r)
    else [s[0]] + ReplaceAll(s[1..], p, r)
  }

  /** `p` starts `s` exactly when it occurs there at position 0. */
  lemma StartsWithMatchAt(s: string, p: string)
    ensures StartsWith(s, p) <==> MatchAt(s, p, 0)
  {
  }

  /** The first occurrence is the one `IndexOf` reports. */
  lemma IndexOfFirst(s: string, p: string, i: nat)
    requires MatchAt(s, p, i)
    requires forall j :: 0 <= j < i ==> !MatchAt(s, p, j)
    ensures IndexOf(s, p) == Some(i)
  {
  }

  /** The text before the first occurrence of `p` contains no `p`. */
  lemma PrefixBeforeFirst(t: string, p: string)
    requires p != [] && Contains(t, p)
    ensures !Contains(t[..IndexOf(t, p).value], p)
  {
    var k := IndexOf(t, p).value;
    var u := t[..k];
    if Contains(u, p) {
      var j := IndexOf(u, p).value;
      assert u[j..j + |p|] == t[j..j + |p|];
      assert MatchAt(t, p, j);
    }
  }

  /** Replacing in a string where `p` does not occur changes nothing. */
  lemma {:induction false} ReplaceAllAbsent(s: string, p: string, r: string)
    requires p != [] && !Contains(s, p)
    ensures ReplaceAll(s, p, r) == s
    decreases |s|
  {
    if s != [] {
      StartsWithMatchAt(s, p);
      forall j | 0 <= j
        ensures !MatchAt(s[1..], p, j)
      {
        MatchAtTail(s, p, j + 1);
      }
      ReplaceAllAbsent(s[1..], p, r);
    }
  }

  /** The scan copies a prefix in which `p` does not start anywhere. */
  lemma {:induction false} ReplaceAllSkip(s: string, p: string, r: string, k: nat)
    requires p != [] && k <= |s|
    requires forall j :: 0 <= j < k ==> !MatchAt(s, p, j)
    ensures ReplaceAll(s, p, r) == s[..k] + ReplaceAll(s[k..], p, r)
    decreases k
  {
    if k > 0 {
      var t := s[1..];
      assert !MatchAt(s, p, 0);
      StartsWithMatchAt(s, p);
      assert ReplaceAll(s, p, r) == [s[0]] + ReplaceAll(t, p, r);
      forall j | 0 <= j < k - 1
        ensures !MatchAt(t, p, j)
      {
        MatchAtTail(s, p, j + 1);
      }
      ReplaceAllSkip(t, p, r, k - 1);
      assert t[k - 1..] == s[k..];
      assert [s[0]] + t[..k - 1] == s[..k];
      ConcatAssoc([s[0]], t[..k - 1], ReplaceAll(s[k..], p, r));
    }
  }

  /** The scan replaces an occurrence with none before it and carries on
      after it. */
  lemma ReplaceAllAt(s: string, p: string, r: string, k: nat)
    requires p != [] && MatchAt(s, p, k)
    requires forall j :: 0 <= j < k ==> !MatchAt(s, p, j)
    ensures ReplaceAll(s, p, r) == s[..k] + r + ReplaceAll(s[k + |p|..], p, r)
  {
    var t, rest := s[k..], s[k + |p|..];
    ReplaceAllSkip(s, p, r, k);
    assert t[..|p|] == s[k..k + |p|] && t[|p|..] == rest;
    ReplaceAllHead(t, p, r);
    ConcatAssoc(s[..k], r, ReplaceAll(rest, p, r));
  }

  lemma ConcatAssoc(a: string, b: string, c: string)
    ensures a + (b + c) == a + b + c
  {
  }

  /** A string that starts with `p` has its head replaced. */
  lemma ReplaceAllHead(t: string, p: string, r: string)
    requires p != [] && StartsWith(t, p)
    ensures ReplaceAll(t, p, r) == r + ReplaceAll(t[|p|..], p, r)
  {
  }

  /** The scan replaces the first occurrence and carries on after it. */
  lemma ReplaceAllFirst(s: string, p: string, r: string)
    requires p != [] && Contains(s, p)
    ensures var k := IndexOf(s, p).value;
      ReplaceAll(s, p, r) == s[..k] + r + ReplaceAll(s[k + |p|..], p, r)
  {
    var k := IndexOf(s, p).value;
    assert MatchAt(s, p, k) && forall j :: 0 <= j < k ==> !MatchAt(s, p, j);
    ReplaceAllAt(s, p, r, k);
  }

  /** Whitespace removed by PHP `trim` with its default character list. */
  const PhpWhitespace: set<char> := {' ', '\t', '\n', '\r', '\0', '\U{000B}'}

  /** Whitespace and line terminators removed by JavaScript `String.prototype.trim`. */
  const JsWhitespace: set<char> :=
    {'\t', '\n', '\U{000B}', '\U{000C}', '\r', ' ', '\U{00A0}', '\U{1680}',
     '\U{2000}', '\U{2001}', '\U{2002}', '\U{2003}', '\U{2004}', '\U{2005}',
     '\U{2006}', '\U{2007}', '\U{2008}', '\U{2009}', '\U{200A}', '\U{2028}',
     '\U{2029}', '\U{202F}', '\U{205F}', '\U{3000}', '\U{FEFF}'}

  function TrimLeft(s: string, ws: set<char>): (r: string)
    ensures |r| <= |s| && r == s[|s| - |r|..]
    ensures r == [] || r[0] !in ws
    ensures forall i :: 0 <= i < |s| - |r| ==> s[i] in ws
    decreases |s|
  {
    if s != [] && s[0] in ws then
      var r := TrimLeft(s[1..], ws);
      assert forall i :: 1 <= i < |s| - |r| ==> s[i] == s[1..][i - 1];
      r
    else s
  }

  function TrimRight(s: string, ws: set<char>): (r: string)
    ensures |r| <= |s| && r == s[..|r|]
    ensures r == [] || r[|r| - 1] !in ws
    ensures forall i :: |r| <= i < |s| ==> s[i] in ws
    decreases |s|
  {
    if s != [] && s[|s| - 1] in ws then TrimRight(s[..|s| - 1], ws) else s
  }

  /** A string with no `ws` at either end is its own trim. */
  lemma TrimUnchanged(s: string, ws: set<char>)
    requires s != [] && s[0] !in ws && s[|s| - 1] !in ws
    ensures Trim(s, ws) == s
  {
  }

  /** Strips characters of `ws` from both ends. */
  function Trim(s: string, ws: set<char>): (r: string)
    ensures |r| <= |s|
    ensures r == [] || (r[0] !in ws && r[|r| - 1] !in ws)
  {
    TrimRight(TrimLeft(s, ws), ws)
  }

  /** PHP `substr($s, 0, $n)`. */
  function Prefix(s: string, n: nat): (r: string)
    ensures |r| == if |s| <= n then |s| else n
    ensures r == s[..|r|]
  {
    if |s| <= n then s else s[..n]
  }

  /** PHP `array_slice($xs, -$n)` for a list longer than `n`, else the list itself. */
  function LastN<T>(xs: seq<T>, n: nat): (r: seq<T>)
    ensures |r| == if |xs| <= n then |xs| else n
    ensures r == xs[|xs| - |r|..]
  {
    if |xs| <= n then xs else xs[|xs| - n..]
  }

  /** JavaScript `value || fallback` for an optional string: a missing or
      empty value gives the fallback. */
  function JsOr(value: Option<string>, fallback: string): (r: string)
    ensures value.Some? && value.value != "" ==> r == value.value
    ensures value.None? || value.value == "" ==> r == fallback
  {
    if value.Some? && value.value != "" then value.value else fallback
  }

  /** PHP `empty()` of a string: the empty string and "0" are empty. */
  predicate PhpEmpty(s: string) {
    s == "" || s == "0"
  }

  function DigitChar(d: nat): (c: char)
    requires d < 10
    ensures '0' <= c <= '9'
  {
    "0123456789"[d]
  }

  /** Decimal representation of a natural number (PHP string conversion). */
  function NatToString(n: nat): (r: string)
    ensures |r| > 0
    ensures forall i :: 0 <= i < |r| ==> '0' <= r[i] <= '9'
  {
    if n < 10 then [DigitChar(n)] else NatToString(n / 10) + [DigitChar(n % 10)]
  }

  /** Decimal representation of an integer, with a leading '-' when negative. */
  function IntToString(n: int): (r: string)
    ensures |r| > 0
  {
    if n < 0 then "-" + NatToString(-n) else NatToString(n)
  }
}
