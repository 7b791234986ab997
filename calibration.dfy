/**
 * The calibration-value search of src/lib.rs. A token is a decimal digit
 * character or one of the words `one` … `nine`. `find_first` returns the token
 * that starts earliest in a fragment; `find_last` searches the reversed
 * fragment for reversed tokens and turns the match back round, which finds the
 * token that ends latest; `parse_frag` reads both as one two-digit number.
 *
 * A regular expression built from alternatives finds the leftmost position at
 * which one of them matches, taking at that position the first alternative in
 * the order written; `Find` and `MatchAt` model exactly that search.
 */
module Calibration {
  import opened Wrappers

  predicate IsDigit(c: char)
  {
    '0' <= c <= '9'
  }

  /** The spelled digits, in the order of both patterns. */
  const Words: seq<string> := ["one", "two", "three", "four", "five", "six", "seven", "eight", "nine"]

  /** The one-character strings `0` … `9`: the class `[0-9]`. */
  function DigitStrings(): (ds: seq<string>)
    ensures |ds| == 10
    ensures forall k :: 0 <= k < 10 ==> |ds[k]| == 1 && ds[k][0] as int == '0' as int + k
  {
    seq(10, k requires 0 <= k < 10 => [('0' as int + k) as char])
  }

  /** The alternatives of the `find_first` pattern, in order. */
  function Tokens(): seq<string>
  {
    DigitStrings() + Words
  }

  /** A token: a digit character or a spelled digit. */
  predicate IsToken(t: string)
  {
    (|t| == 1 && IsDigit(t[0])) || t in Words
  }

  lemma TokensAreTokens(t: string)
    ensures t in Tokens() <==> IsToken(t)
  {
    var ds := DigitStrings();
    if |t| == 1 && IsDigit(t[0]) {
      var k := t[0] as int - '0' as int;
      assert ds[k] == t;
    }
    if t in ds {
      var k :| 0 <= k < 10 && ds[k] == t;
    }
  }

  function Reverse(s: string): (r: string)
    ensures |r| == |s|
    ensures forall i :: 0 <= i < |s| ==> r[i] == s[|s| - 1 - i]
  {
    seq(|s|, i requires 0 <= i < |s| => s[|s| - 1 - i])
  }

  lemma ReverseReverse(s: string)
    ensures Reverse(Reverse(s)) == s
  {
  }

  /** The alternatives of the `find_last` pattern: each token spelled backwards. */
  function RevTokens(): (rs: seq<string>)
    ensures |rs| == |Tokens()|
    ensures forall k :: 0 <= k < |rs| ==> rs[k] == Reverse(Tokens()[k])
  {
    seq(|Tokens()|, k requires 0 <= k < |Tokens()| => Reverse(Tokens()[k]))
  }

  /** `r` spells `w` backwards. */
  lemma ReverseOf(w: string, r: string)
    requires |r| == |w|
    requires forall i :: 0 <= i < |w| ==> r[i] == w[|w| - 1 - i]
    ensures Reverse(w) == r
  {
  }

  /** The reversed words are those of the `find_last` pattern as written. */
  lemma RevTokensAsWritten()
    ensures RevTokens()[10..] == ["eno", "owt", "eerht", "ruof", "evif", "xis", "neves", "thgie", "enin"]
  {
    RevWordsLow();
    RevWordsHigh();
    assert RevTokens()[10..] == RevTokens()[10..14] + RevTokens()[14..];
  }

  lemma RevWordsLow()
    ensures RevTokens()[10..14] == ["eno", "owt", "eerht", "ruof"]
  {
    assert Tokens()[10..14] == Words[..4];
    ReverseOf("one", "eno");
    ReverseOf("two", "owt");
    ReverseOf("three", "eerht");
    ReverseOf("four", "ruof");
  }

  lemma RevWordsHigh()
    ensures RevTokens()[14..] == ["evif", "xis", "neves", "thgie", "enin"]
  {
    assert Tokens()[14..] == Words[4..];
    ReverseOf("five", "evif");
    ReverseOf("six", "xis");
    ReverseOf("seven", "neves");
    ReverseOf("eight", "thgie");
    ReverseOf("nine", "enin");
  }

  /** The alternative the pattern takes at position `i`: the first one `s[i..]` starts with. */
  function MatchAt(s: string, i: nat, alts: seq<string>): (r: Option<string>)
    requires i <= |s|
    ensures r.Some? ==> r.value in alts && r.value <= s[i..]
    ensures r.Some? ==> exists k :: FirstAlt(s, i, alts, k) && alts[k] == r.value
    ensures r.None? <==> forall a :: a in alts ==> !(a <= s[i..])
  {
    if alts == [] then None
    else if alts[0] <= s[i..] then Some(alts[0])
    else
      assert forall a :: a in alts ==> a == alts[0] || a in alts[1..];
      var r := MatchAt(s, i, alts[1..]);
      if r.Some? then
        var k :| FirstAlt(s, i, alts[1..], k) && alts[1..][k] == r.value;
        FirstAltShift(s, i, alts, k);
        r
      else r
  }

  /** `alts[k]` is preceded only by alternatives that do not match at `i`. */
  predicate FirstAlt(s: string, i: nat, alts: seq<string>, k: int)
    requires i <= |s|
  {
    0 <= k < |alts| && forall j :: 0 <= j < k ==> !(alts[j] <= s[i..])
  }

  lemma FirstAltShift(s: string, i: nat, alts: seq<string>, k: int)
    requires i <= |s| && alts != [] && !(alts[0] <= s[i..])
    requires FirstAlt(s, i, alts[1..], k)
    ensures FirstAlt(s, i, alts, k + 1) && alts[k + 1] == alts[1..][k]
  {
  }

  /** The leftmost position from `from` on where an alternative matches. */
  function Find(s: string, alts: seq<string>, from: nat): (r: Option<nat>)
    requires from <= |s|
    ensures r.Some? ==> from <= r.value <= |s| && MatchAt(s, r.value, alts).Some?
    ensures r.Some? ==> forall j :: from <= j < r.value ==> MatchAt(s, j, alts).None?
    ensures r.None? <==> forall j :: from <= j <= |s| ==> MatchAt(s, j, alts).None?
    decreases |s| - from
  {
    if MatchAt(s, from, alts).Some? then Some(from)
    else if from == |s| then None
    else Find(s, alts, from + 1)
  }

  /** A token starts at position `i` of `s`. */
  ghost predicate StartsAt(s: string, i: nat)
  {
    i <= |s| && exists t :: IsToken(t) && t <= s[i..]
  }

  /** `a` is a suffix of `x`. */
  predicate EndsWith(x: string, a: string)
  {
    |a| <= |x| && x[|x| - |a|..] == a
  }

  /** A token ends at position `e` of `s`. */
  ghost predicate EndsAt(s: string, e: nat)
  {
    e <= |s| && exists t :: IsToken(t) && EndsWith(s[..e], t)
  }

  /** The token the pattern matches at `i`, if any. */
  lemma MatchAtTokens(s: string, i: nat)
    requires i <= |s|
    ensures MatchAt(s, i, Tokens()).Some? <==> StartsAt(s, i)
    ensures MatchAt(s, i, Tokens()).Some? ==> IsToken(MatchAt(s, i, Tokens()).value)
  {
    var r := MatchAt(s, i, Tokens());
    if r.Some? {
      TokensAreTokens(r.value);
    }
    if StartsAt(s, i) {
      var t :| IsToken(t) && t <= s[i..];
      TokensAreTokens(t);
    }
  }

  /**
   * `find_first`: the token that starts earliest, or None when no token occurs.
   */
  function FindFirst(s: string): (r: Option<string>)
    ensures r.None? <==> forall i :: 0 <= i <= |s| ==> !StartsAt(s, i)
    ensures r.Some? ==> IsToken(r.value)
    ensures r.Some? ==> exists i ::
      (0 <= i <= |s| && r.value <= s[i..] && forall j :: 0 <= j < i ==> !StartsAt(s, j))
  {
    var p := Find(s, Tokens(), 0);
    assert forall i :: 0 <= i <= |s| ==> (MatchAt(s, i, Tokens()).Some? <==> StartsAt(s, i)) by {
      forall i | 0 <= i <= |s| {
        MatchAtTokens(s, i);
      }
    }
    if p.None? then None
    else
      MatchAtTokens(s, p.value);
      MatchAt(s, p.value, Tokens())
  }

  /** Dropping `p` characters from the reversed `s` reverses the first `|s| - p` of `s`. */
  lemma RevDrop(s: string, p: nat)
    requires p <= |s|
    ensures Reverse(s)[p..] == Reverse(s[..|s| - p])
  {
    var x := s[..|s| - p];
    forall i | 0 <= i < |s| - p
      ensures Reverse(s)[p..][i] == Reverse(x)[i]
    {
      assert Reverse(x)[i] == x[|x| - 1 - i];
    }
  }

  /** A reversed string starts with `Reverse(a)` exactly when the string ends with `a`. */
  lemma RevPrefix(x: string, a: string)
    ensures Reverse(a) <= Reverse(x) <==> EndsWith(x, a)
  {
    var ra, rx := Reverse(a), Reverse(x);
    if |a| <= |x| {
      var tail := x[|x| - |a|..];
      if ra <= rx {
        forall j | 0 <= j < |a|
          ensures tail[j] == a[j]
        {
          assert ra[|a| - 1 - j] == rx[|a| - 1 - j];
        }
      }
      if tail == a {
        forall i | 0 <= i < |a|
          ensures ra[i] == rx[i]
        {
          assert tail[|a| - 1 - i] == a[|a| - 1 - i];
        }
      }
    }
  }

  /** The reversed pattern matches at `p` of the reversed `s` exactly when a token ends at `|s| - p`. */
  lemma RevMatchAtTokens(s: string, p: nat)
    requires p <= |s|
    ensures MatchAt(Reverse(s), p, RevTokens()).Some? <==> EndsAt(s, |s| - p)
    ensures MatchAt(Reverse(s), p, RevTokens()).Some? ==>
      var t := Reverse(MatchAt(Reverse(s), p, RevTokens()).value);
      IsToken(t) && EndsWith(s[..|s| - p], t)
  {
    var rs := Reverse(s);
    var x := s[..|s| - p];
    RevDrop(s, p);
    var r := MatchAt(rs, p, RevTokens());
    if r.Some? {
      var k :| 0 <= k < |RevTokens()| && RevTokens()[k] == r.value;
      var t := Tokens()[k];
      ReverseReverse(t);
      TokensAreTokens(t);
      RevPrefix(x, t);
    }
    if EndsAt(s, |s| - p) {
      var t :| IsToken(t) && EndsWith(x, t);
      TokensAreTokens(t);
      var k :| 0 <= k < |Tokens()| && Tokens()[k] == t;
      RevPrefix(x, t);
      assert RevTokens()[k] in RevTokens() && RevTokens()[k] <= rs[p..];
    }
  }

  /**
   * `find_last`: the token that ends latest, spelled forwards, or None when no
   * token occurs.
   */
  function FindLast(s: string): (r: Option<string>)
    ensures r.None? <==> forall e :: 0 <= e <= |s| ==> !EndsAt(s, e)
    ensures r.Some? ==> IsToken(r.value)
    ensures r.Some? ==> exists e ::
      (0 <= e <= |s| && EndsWith(s[..e], r.value) && forall f :: e < f <= |s| ==> !EndsAt(s, f))
  {
    var p := Find(Reverse(s), RevTokens(), 0);
    if p.None? then
      RevFindNone(s);
      None
    else
      RevFindSome(s, p.value);
      var t := Reverse(MatchAt(Reverse(s), p.value, RevTokens()).value);
      Some(t)
  }

  /** No reversed token in the reversed text: no token ends anywhere. */
  lemma RevFindNone(s: string)
    requires Find(Reverse(s), RevTokens(), 0).None?
    ensures forall e :: 0 <= e <= |s| ==> !EndsAt(s, e)
  {
    forall e | 0 <= e <= |s|
      ensures !EndsAt(s, e)
    {
      RevMatchAtTokens(s, |s| - e);
    }
  }

  /** The first reversed token at `p` is the token that ends latest, at `|s| - p`. */
  lemma RevFindSome(s: string, p: nat)
    requires Find(Reverse(s), RevTokens(), 0) == Some(p)
    ensures p <= |s| && MatchAt(Reverse(s), p, RevTokens()).Some?
    ensures var t := Reverse(MatchAt(Reverse(s), p, RevTokens()).value);
      IsToken(t) && EndsWith(s[..|s| - p], t)
    ensures EndsAt(s, |s| - p)
    ensures forall f :: |s| - p < f <= |s| ==> !EndsAt(s, f)
  {
    forall f | |s| - p < f <= |s|
      ensures !EndsAt(s, f)
    {
      RevMatchAtTokens(s, |s| - f);
    }
    RevMatchAtTokens(s, p);
  }

  /** A token starts somewhere exactly when one ends somewhere. */
  lemma StartsIffEnds(s: string)
    ensures (exists i :: 0 <= i <= |s| && StartsAt(s, i)) <==> (exists e :: 0 <= e <= |s| && EndsAt(s, e))
  {
    if i :| 0 <= i <= |s| && StartsAt(s, i) {
      var t :| IsToken(t) && t <= s[i..];
      assert s[..i + |t|][i..] == t;
      assert EndsAt(s, i + |t|);
    }
    if e :| 0 <= e <= |s| && EndsAt(s, e) {
      var t :| IsToken(t) && EndsWith(s[..e], t);
      assert s[e - |t|..][..|t|] == t;
      assert StartsAt(s, e - |t|);
    }
  }

  /** `find_first` finds nothing exactly when `find_last` finds nothing. */
  lemma FindFirstNoneIffFindLastNone(s: string)
    ensures FindFirst(s).None? <==> FindLast(s).None?
  {
    StartsIffEnds(s);
  }

  /** The first three letters of a spelled digit. */
  predicate IsWordHead(a: char, b: char, c: char)
  {
    (a, b, c) == ('o', 'n', 'e') ||
      (a, b, c) == ('t', 'w', 'o') ||
      (a, b, c) == ('t', 'h', 'r') ||
      (a, b, c) == ('f', 'o', 'u') ||
      (a, b, c) == ('f', 'i', 'v') ||
      (a, b, c) == ('s', 'i', 'x') ||
      (a, b, c) == ('s', 'e', 'v') ||
      (a, b, c) == ('e', 'i', 'g') ||
      (a, b, c) == ('n', 'i', 'n')
  }

  /** The last three letters of a spelled digit. */
  predicate IsWordTail(a: char, b: char, c: char)
  {
    (a, b, c) == ('o', 'n', 'e') ||
      (a, b, c) == ('t', 'w', 'o') ||
      (a, b, c) == ('r', 'e', 'e') ||
      (a, b, c) == ('o', 'u', 'r') ||
      (a, b, c) == ('i', 'v', 'e') ||
      (a, b, c) == ('s', 'i', 'x') ||
      (a, b, c) == ('v', 'e', 'n') ||
      (a, b, c) == ('g', 'h', 't') ||
      (a, b, c) == ('i', 'n', 'e')
  }

  /** Every spelled digit has at least three letters, begins and ends with a head and a tail. */
  lemma WordsShape()
    ensures forall k :: 0 <= k < |Words| ==> |Words[k]| >= 3 && !IsDigit(Words[k][0]) && !IsDigit(Words[k][|Words[k]| - 1])
    ensures forall k :: 0 <= k < |Words| ==> IsWordHead(Words[k][0], Words[k][1], Words[k][2])
    ensures forall k :: 0 <= k < |Words| ==>
      IsWordTail(Words[k][|Words[k]| - 3], Words[k][|Words[k]| - 2], Words[k][|Words[k]| - 1])
  {
    forall k | 0 <= k < |Words|
      ensures |Words[k]| >= 3 && !IsDigit(Words[k][0]) && !IsDigit(Words[k][|Words[k]| - 1])
      ensures IsWordHead(Words[k][0], Words[k][1], Words[k][2])
      ensures IsWordTail(Words[k][|Words[k]| - 3], Words[k][|Words[k]| - 2], Words[k][|Words[k]| - 1])
    {
      assert k == 0 || k == 1 || k == 2 || k == 3 || k == 4 || k == 5 || k == 6 || k == 7 || k == 8;
    }
  }

  /** No two spelled digits share their first two letters, nor their last three. */
  lemma WordsDistinct()
    ensures forall j, k :: 0 <= j < k < |Words| ==> Words[j][0] != Words[k][0] || Words[j][1] != Words[k][1]
    ensures forall j, k :: 0 <= j < k < |Words| ==>
      Words[j][|Words[j]| - 1] != Words[k][|Words[k]| - 1] ||
      Words[j][|Words[j]| - 2] != Words[k][|Words[k]| - 2] ||
      Words[j][|Words[j]| - 3] != Words[k][|Words[k]| - 3]
  {
    forall j, k | 0 <= j < k < |Words|
      ensures Words[j][0] != Words[k][0] || Words[j][1] != Words[k][1]
      ensures Words[j][|Words[j]| - 1] != Words[k][|Words[k]| - 1] ||
        Words[j][|Words[j]| - 2] != Words[k][|Words[k]| - 2] ||
        Words[j][|Words[j]| - 3] != Words[k][|Words[k]| - 3]
    {
      assert j == 0 || j == 1 || j == 2 || j == 3 || j == 4 || j == 5 || j == 6 || j == 7;
      assert k == 1 || k == 2 || k == 3 || k == 4 || k == 5 || k == 6 || k == 7 || k == 8;
    }
  }

  /**
   * At most one token starts at any position, so the order of the pattern's
   * alternatives never decides what `find_first` returns.
   */
  lemma TokenStartUnique(x: string, u: string, t: string)
    requires IsToken(u) && IsToken(t) && u <= x && t <= x
    ensures u == t
  {
    WordsShape();
    WordsDistinct();
    if u in Words && t in Words {
      var j :| 0 <= j < |Words| && Words[j] == u;
      var k :| 0 <= k < |Words| && Words[k] == t;
      assert u[0] == x[0] == t[0] && u[1] == x[1] == t[1];
      assert j == k;
    } else if u !in Words && t !in Words {
      assert u == [x[0]] == t;
    }
  }

  /** At most one token ends at any position, so the same holds for `find_last`. */
  lemma TokenEndUnique(x: string, u: string, t: string)
    requires IsToken(u) && IsToken(t) && EndsWith(x, u) && EndsWith(x, t)
    ensures u == t
  {
    var n := |x|;
    if u in Words && t in Words {
      WordsEndUnique(x, u, t);
    } else if u !in Words && t !in Words {
      assert u == [x[n - 1]] == t;
    } else {
      WordsShape();
    }
  }

  lemma WordsEndUnique(x: string, u: string, t: string)
    requires u in Words && t in Words && EndsWith(x, u) && EndsWith(x, t)
    ensures u == t
  {
    var n := |x|;
    var j :| 0 <= j < |Words| && Words[j] == u;
    var k :| 0 <= k < |Words| && Words[k] == t;
    WordLength(j);
    WordLength(k);
    assert x[n - |u|..][|u| - 1] == u[|u| - 1] && x[n - |t|..][|t| - 1] == t[|t| - 1];
    assert x[n - |u|..][|u| - 2] == u[|u| - 2] && x[n - |t|..][|t| - 2] == t[|t| - 2];
    assert x[n - |u|..][|u| - 3] == u[|u| - 3] && x[n - |t|..][|t| - 3] == t[|t| - 3];
    WordTailsDiffer(j, k);
  }

  lemma WordLength(j: nat)
    requires j < |Words|
    ensures |Words[j]| >= 3
  {
    assert j == 0 || j == 1 || j == 2 || j == 3 || j == 4 || j == 5 || j == 6 || j == 7 || j == 8;
  }

  /** No two number words share their last three letters. */
  lemma WordTailsDiffer(j: nat, k: nat)
    requires j < |Words| && k < |Words| && |Words[j]| >= 3 && |Words[k]| >= 3
    requires Words[j][|Words[j]| - 1] == Words[k][|Words[k]| - 1]
    requires Words[j][|Words[j]| - 2] == Words[k][|Words[k]| - 2]
    requires Words[j][|Words[j]| - 3] == Words[k][|Words[k]| - 3]
    ensures j == k
  {
    WordsDistinct();
  }

  /** `find_first` returns the token at the earliest position where one starts. */
  lemma FindFirstIs(s: string, i: nat, t: string)
    requires i <= |s| && IsToken(t) && t <= s[i..]
    requires forall j :: 0 <= j < i ==> !StartsAt(s, j)
    ensures FindFirst(s) == Some(t)
  {
    assert StartsAt(s, i);
    var r := FindFirst(s);
    var i' :| 0 <= i' <= |s| && r.value <= s[i'..] && forall j :: 0 <= j < i' ==> !StartsAt(s, j);
    assert StartsAt(s, i');
    assert i' == i;
    TokenStartUnique(s[i..], r.value, t);
  }

  /** `find_last` returns the token at the latest position where one ends. */
  lemma FindLastIs(s: string, e: nat, t: string)
    requires e <= |s| && IsToken(t) && EndsWith(s[..e], t)
    requires forall f :: e < f <= |s| ==> !EndsAt(s, f)
    ensures FindLast(s) == Some(t)
  {
    assert EndsAt(s, e);
    var r := FindLast(s);
    var e' :| 0 <= e' <= |s| && EndsWith(s[..e'], r.value) && forall f :: e' < f <= |s| ==> !EndsAt(s, f);
    assert EndsAt(s, e');
    assert e' == e;
    TokenEndUnique(s[..e], r.value, t);
  }

  /** No token starts at `j` when the character there is no digit and the three there head no word. */
  lemma NoStartAt(s: string, j: nat)
    requires j <= |s|
    requires j < |s| ==> !IsDigit(s[j])
    requires j + 2 < |s| ==> !IsWordHead(s[j], s[j + 1], s[j + 2])
    ensures !StartsAt(s, j)
  {
    WordsShape();
  }

  /** No token ends at `e` when the character before is no digit and the three before end no word. */
  lemma NoEndAt(s: string, e: nat)
    requires e <= |s|
    requires e >= 1 ==> !IsDigit(s[e - 1])
    requires e >= 3 ==> !IsWordTail(s[e - 3], s[e - 2], s[e - 1])
    ensures !EndsAt(s, e)
  {
    WordsShape();
  }

  /** The index of a spelled digit in the table. */
  function WordIndex(t: string, from: nat): (k: nat)
    requires exists j :: from <= j < |Words| && Words[j] == t
    ensures from <= k < |Words| && Words[k] == t
    decreases |Words| - from
  {
    if Words[from] == t then from else WordIndex(t, from + 1)
  }

  /**
   * The digit a token stands for: a digit character parses as itself, and a
   * word is looked up in the table `one` = 1 … `nine` = 9.
   */
  function TokenValue(t: string): (d: nat)
    requires IsToken(t)
    ensures d <= 9
    ensures |t| == 1 && IsDigit(t[0]) ==> d == t[0] as int - '0' as int
    ensures !(|t| == 1 && IsDigit(t[0])) ==> 1 <= d && Words[d - 1] == t
  {
    if |t| == 1 && IsDigit(t[0]) then t[0] as int - '0' as int
    else WordIndex(t, 0) + 1
  }

  /** The message of the `unwrap` that panics on a fragment without a token. */
  const UnwrapNone := "called `Option::unwrap()` on a `None` value"

  /**
   * `parse_frag`: the two-digit number whose tens are the earliest token and
   * whose units are the latest one; it panics when no token occurs.
   */
  function ParseFrag(s: string): (r: Run<nat>)
    ensures r.Panics? <==> forall i :: 0 <= i <= |s| ==> !StartsAt(s, i)
    ensures r.Panics? ==> r.reason == UnwrapNone
    ensures r.Returns? ==> FindFirst(s).Some? && FindLast(s).Some? && r.value <= 99
  {
    var first, last := FindFirst(s), FindLast(s);
    FindFirstNoneIffFindLastNone(s);
    if first.None? then Panics(UnwrapNone)
    else
      Returns(10 * TokenValue(first.value) + TokenValue(last.value))
  }

  /** The tens digit of `parse_frag`'s number is the earliest token, the units digit the latest. */
  lemma ParseFragDigits(s: string)
    ensures ParseFrag(s).Returns? ==> ParseFrag(s).value / 10 == TokenValue(FindFirst(s).value)
    ensures ParseFrag(s).Returns? ==> ParseFrag(s).value % 10 == TokenValue(FindLast(s).value)
  {
    var r := ParseFrag(s);
    if r.Returns? {
      TwoDigits(TokenValue(FindFirst(s).value), TokenValue(FindLast(s).value), r.value);
    }
  }

  /** The tens and the units of a two-digit number. */
  lemma TwoDigits(tens: nat, units: nat, n: nat)
    requires tens <= 9 && units <= 9 && n == 10 * tens + units
    ensures n / 10 == tens && n % 10 == units
  {
  }

  /**
   * `parse_frag` reads the token starting earliest as tens and the token ending
   * latest as units: with `t` starting at `i`, where no token starts before,
   * and `u` ending at `e`, where no token ends after, the number is `10 * t + u`.
   */
  lemma ParseFragReads(s: string, i: nat, t: string, e: nat, u: string)
    requires i <= |s| && IsToken(t) && t <= s[i..]
    requires forall j :: 0 <= j < i ==> !StartsAt(s, j)
    requires e <= |s| && IsToken(u) && EndsWith(s[..e], u)
    requires forall f :: e < f <= |s| ==> !EndsAt(s, f)
    ensures ParseFrag(s).Returns? && ParseFrag(s).value == 10 * TokenValue(t) + TokenValue(u)
  {
    FindFirstIs(s, i, t);
    FindLastIs(s, e, u);
    ParseFragOf(s, t, u);
  }

  lemma ParseFragOf(s: string, t: string, u: string)
    requires FindFirst(s) == Some(t) && FindLast(s) == Some(u)
    ensures IsToken(t) && IsToken(u)
    ensures ParseFrag(s).Returns? && ParseFrag(s).value == 10 * TokenValue(t) + TokenValue(u)
  {
  }

  /** A fragment whose only token is `t` reads as `t` twice: `11 * d`. */
  lemma SingleTokenTwice(s: string, i: nat, t: string)
    requires i <= |s| && IsToken(t) && t <= s[i..]
    requires forall j :: 0 <= j <= |s| && j != i ==> !StartsAt(s, j)
    ensures ParseFrag(s).Returns? && ParseFrag(s).value == 11 * TokenValue(t)
  {
    OnlyTokenEnds(s, i, t);
    ParseFragReads(s, i, t, i + |t|, t);
  }

  /** The only token of the line ends where it starts plus its length, and nothing ends later. */
  lemma OnlyTokenEnds(s: string, i: nat, t: string)
    requires i <= |s| && IsToken(t) && t <= s[i..]
    requires forall j :: 0 <= j <= |s| && j != i ==> !StartsAt(s, j)
    ensures i + |t| <= |s| && EndsWith(s[..i + |t|], t)
    ensures forall f :: i + |t| < f <= |s| ==> !EndsAt(s, f)
  {
    assert s[..i + |t|][i..] == t;
    forall f | i + |t| < f <= |s|
      ensures !EndsAt(s, f)
    {
      NoLaterEnd(s, i, t, f);
    }
  }

  lemma NoLaterEnd(s: string, i: nat, t: string, f: nat)
    requires i <= |s| && IsToken(t) && t <= s[i..]
    requires forall j :: 0 <= j <= |s| && j != i ==> !StartsAt(s, j)
    requires i + |t| < f <= |s|
    ensures !EndsAt(s, f)
  {
    if EndsAt(s, f) {
      var u :| IsToken(u) && EndsWith(s[..f], u);
      var j := f - |u|;
      assert s[j..][..|u|] == s[..f][j..] == u;
      assert StartsAt(s, j);
      assert j == i;
      TokenStartUnique(s[i..], u, t);
    }
  }
}
