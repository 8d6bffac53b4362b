/** The Python `str` operations the resume bot is built from: `split`, `strip`,
    `lower`, `join`, `replace`, `startswith` and the `in` operator, plus
    `Upper`, a case normalisation used only to compare a DOCX heading with its
    upper-case PDF partner.  Strings are sequences of characters; `lower` and
    `Upper` are restricted to ASCII letters. */
module PyStr {

  function Min(a: int, b: int): int { if a <= b then a else b }

  /** The characters `str.isspace()` accepts, which are those `str.strip()` removes. */
  predicate IsSpace(c: char) {
    c == ' ' || '\t' <= c <= '\r' || '\U{1C}' <= c <= '\U{1F}' || c == '\U{85}' || c == '\U{A0}'
    || c == '\U{1680}' || '\U{2000}' <= c <= '\U{200A}' || c == '\U{2028}' || c == '\U{2029}'
    || c == '\U{202F}' || c == '\U{205F}' || c == '\U{3000}'
  }

  /** Number of occurrences of `c` in `s` (`s.count(c)`). */
  function Count(s: string, c: char): (n: nat)
    ensures n <= |s|
  {
    if s == [] then 0 else (if s[0] == c then 1 else 0) + Count(s[1..], c)
  }

  /** `c` occurs in `s` exactly when it is counted at least once. */
  lemma {:induction false} CountZero(s: string, c: char)
    ensures Count(s, c) == 0 <==> c !in s
  {
    if s != [] {
      CountZero(s[1..], c);
      assert s == [s[0]] + s[1..];
    }
  }

  /** `sep.join(xs)`. */
  function Join(sep: string, xs: seq<string>): string {
    if |xs| == 0 then "" else if |xs| == 1 then xs[0] else xs[0] + sep + Join(sep, xs[1..])
  }

  /** `s.split(sep, maxsplit)` for a one-character separator; a negative
      `maxsplit` splits at every separator, as in Python.  There is at least
      one piece and at most one more than the splits allowed, and no piece
      but the last contains the separator (none at all when the splits are
      unlimited). */
  function Split(s: string, sep: char, maxsplit: int): (r: seq<string>)
    ensures 1 <= |r| && (maxsplit >= 0 ==> |r| <= maxsplit + 1)
  {
    if s == [] then [""]
    else if s[0] == sep && maxsplit != 0 then
      [""] + Split(s[1..], sep, if maxsplit > 0 then maxsplit - 1 else maxsplit)
    else
      var rest := Split(s[1..], sep, maxsplit);
      [[s[0]] + rest[0]] + rest[1..]
  }

  /** No piece but the last holds the separator, and the last holds none
      either when the splits are unlimited. */
  lemma {:induction false} SplitPieces(s: string, sep: char, maxsplit: int)
    ensures forall i :: 0 <= i < |Split(s, sep, maxsplit)| - 1 ==> sep !in Split(s, sep, maxsplit)[i]
    ensures maxsplit < 0 ==> sep !in Split(s, sep, maxsplit)[|Split(s, sep, maxsplit)| - 1]
    decreases |s|
  {
    if s != [] {
      if s[0] == sep && maxsplit != 0 {
        var m := if maxsplit > 0 then maxsplit - 1 else maxsplit;
        SplitPieces(s[1..], sep, m);
        var rest := Split(s[1..], sep, m);
        assert Split(s, sep, maxsplit) == [""] + rest;
      } else {
        SplitPieces(s[1..], sep, maxsplit);
        var rest := Split(s[1..], sep, maxsplit);
        var r := Split(s, sep, maxsplit);
        assert r == [[s[0]] + rest[0]] + rest[1..];
        forall i | 1 <= i < |r| ensures r[i] == rest[i] { }
        if |r| > 1 || maxsplit < 0 {
          assert s[0] != sep && sep !in rest[0];
          assert r[0] == [s[0]] + rest[0];
        }
      }
    }
  }

  /** There is one more piece than there were splits: one per separator,
      up to `maxsplit` of them when it is not negative. */
  lemma {:induction false} SplitCount(s: string, sep: char, maxsplit: int)
    ensures |Split(s, sep, maxsplit)| == 1 + (if maxsplit < 0 then Count(s, sep) else Min(maxsplit, Count(s, sep)))
    decreases |s|
  {
    if s != [] {
      if s[0] == sep && maxsplit != 0 {
        SplitCount(s[1..], sep, if maxsplit > 0 then maxsplit - 1 else maxsplit);
      } else {
        SplitCount(s[1..], sep, maxsplit);
      }
    }
  }

  /** Joining a list whose first element is extended by one character. */
  lemma JoinPrepend(sep: string, c: char, xs: seq<string>)
    requires |xs| >= 1
    ensures Join(sep, [[c] + xs[0]] + xs[1..]) == [c] + Join(sep, xs)
  {
    var ys := [[c] + xs[0]] + xs[1..];
    assert ys[1..] == xs[1..];
  }

  /** Joining a list that starts with an empty element. */
  lemma JoinEmptyFirst(sep: string, xs: seq<string>)
    requires |xs| >= 1
    ensures Join(sep, [""] + xs) == sep + Join(sep, xs)
  {
    assert ([""] + xs)[1..] == xs;
  }

  /** The pieces of a split, joined with the separator, give back the string. */
  lemma {:induction false} SplitJoin(s: string, sep: char, maxsplit: int)
    ensures Join([sep], Split(s, sep, maxsplit)) == s
    decreases |s|
  {
    if s == [] {
    } else if s[0] == sep && maxsplit != 0 {
      var m := if maxsplit > 0 then maxsplit - 1 else maxsplit;
      SplitJoin(s[1..], sep, m);
      JoinEmptyFirst([sep], Split(s[1..], sep, m));
      assert s == [sep] + s[1..];
    } else {
      SplitJoin(s[1..], sep, maxsplit);
      JoinPrepend([sep], s[0], Split(s[1..], sep, maxsplit));
      assert s == [s[0]] + s[1..];
    }
  }

  /** Pieces that join back to `s` and hold no separator before the last one
      are exactly what `split` returns with that many splits. */
  lemma {:induction false} SplitUnique(s: string, sep: char, ps: seq<string>)
    requires |ps| >= 1 && Join([sep], ps) == s
    requires forall i :: 0 <= i < |ps| - 1 ==> sep !in ps[i]
    ensures Split(s, sep, |ps| - 1) == ps
    decreases |s|
  {
    if |ps| == 1 {
      SplitNoSplits(s, sep);
    } else if ps[0] == "" {
      var tail := ps[1..];
      assert Join([sep], ps) == [sep] + Join([sep], tail);
      assert s[0] == sep && s[1..] == Join([sep], tail);
      forall i | 0 <= i < |tail| - 1 ensures sep !in tail[i] { assert tail[i] == ps[i + 1]; }
      SplitUnique(s[1..], sep, tail);
      assert Split(s, sep, |ps| - 1) == [""] + Split(s[1..], sep, |tail| - 1);
      assert ps == [""] + tail;
    } else {
      var tail := [ps[0][1..]] + ps[1..];
      assert sep != ps[0][0] by { assert ps[0][0] in ps[0]; }
      assert Join([sep], ps) == ps[0] + [sep] + Join([sep], ps[1..]);
      assert Join([sep], tail) == ps[0][1..] + [sep] + Join([sep], ps[1..]);
      assert ps[0] == [ps[0][0]] + ps[0][1..];
      assert s[0] == ps[0][0] && s[1..] == Join([sep], tail);
      forall i | 0 <= i < |tail| - 1 ensures sep !in tail[i] {
        if i == 0 {
          assert forall c :: c in ps[0][1..] ==> c in ps[0];
        } else {
          assert tail[i] == ps[i];
        }
      }
      SplitUnique(s[1..], sep, tail);
      assert Split(s, sep, |ps| - 1) == [[s[0]] + tail[0]] + tail[1..];
      assert ps == [[s[0]] + tail[0]] + tail[1..];
    }
  }

  lemma JoinFirstTwo(sep: string, a: string, b: string, qs: seq<string>)
    requires |qs| >= 1
    ensures Join(sep, [a, b] + qs) == a + sep + (b + sep + Join(sep, qs))
  {
    var ps := [a, b] + qs;
    assert ps[1..] == [b] + qs;
    assert ps[1..][1..] == qs;
  }

  /** Two separator-free pieces in front come out of an unlimited split as
      its first two pieces, whatever follows the second separator. */
  lemma SplitFirstTwo(a: string, b: string, sep: char, tail: string)
    requires sep !in a && sep !in b
    ensures Split(a + [sep] + b + [sep] + tail, sep, -1) == [a, b] + Split(tail, sep, -1)
  {
    var qs := Split(tail, sep, -1);
    SplitPieces(tail, sep, -1);
    JoinAfterTwo(a, b, sep, tail);
    PiecesAfterTwo(a, b, sep, qs);
    SplitAllUnique(a + [sep] + b + [sep] + tail, sep, [a, b] + qs);
  }

  lemma JoinAfterTwo(a: string, b: string, sep: char, tail: string)
    ensures Join([sep], [a, b] + Split(tail, sep, -1)) == a + [sep] + b + [sep] + tail
  {
    SplitJoin(tail, sep, -1);
    JoinFirstTwo([sep], a, b, Split(tail, sep, -1));
    assert a + [sep] + b + [sep] + tail == a + [sep] + (b + [sep] + tail);
  }

  lemma PiecesAfterTwo(a: string, b: string, sep: char, qs: seq<string>)
    requires sep !in a && sep !in b
    requires forall i :: 0 <= i < |qs| ==> sep !in qs[i]
    ensures forall i :: 0 <= i < |[a, b] + qs| ==> sep !in ([a, b] + qs)[i]
  {
    var ps := [a, b] + qs;
    forall i | 0 <= i < |ps|
      ensures sep !in ps[i]
    {
      if i >= 2 {
        assert ps[i] == qs[i - 2];
      }
    }
  }

  /** With no splits allowed, `split` returns the whole string. */
  lemma {:induction false} SplitNoSplits(s: string, sep: char)
    ensures Split(s, sep, 0) == [s]
  {
    var r := Split(s, sep, 0);
    SplitJoin(s, sep, 0);
    assert |r| == 1;
    assert Join([sep], r) == r[0];
  }

  /** Allowing at least as many splits as there are separators is the same
      as allowing any number. */
  lemma {:induction false} SplitBeyondCount(s: string, sep: char, maxsplit: int)
    requires Count(s, sep) <= maxsplit
    ensures Split(s, sep, maxsplit) == Split(s, sep, -1)
    decreases |s|
  {
    if s != [] {
      if s[0] == sep {
        SplitBeyondCount(s[1..], sep, maxsplit - 1);
      } else {
        SplitBeyondCount(s[1..], sep, maxsplit);
      }
    }
  }

  /** Separator-free pieces that join back to `s` are exactly what an
      unlimited `split` returns. */
  lemma {:induction false} SplitAllUnique(s: string, sep: char, ps: seq<string>)
    requires |ps| >= 1 && Join([sep], ps) == s
    requires forall i :: 0 <= i < |ps| ==> sep !in ps[i]
    ensures Split(s, sep, -1) == ps
    decreases |s|
  {
    if |ps| == 1 {
      var r := Split(s, sep, -1);
      SplitJoin(s, sep, -1);
      SplitCount(s, sep, -1);
      assert Count(s, sep) == 0;
      assert |r| == 1 && Join([sep], r) == r[0];
    } else if ps[0] == "" {
      var tail := ps[1..];
      assert Join([sep], ps) == [sep] + Join([sep], tail);
      assert s[1..] == Join([sep], tail);
      forall i | 0 <= i < |tail| ensures sep !in tail[i] { assert tail[i] == ps[i + 1]; }
      SplitAllUnique(s[1..], sep, tail);
      assert ps == [""] + tail;
    } else {
      var tail := [ps[0][1..]] + ps[1..];
      assert sep != ps[0][0] by { assert ps[0][0] in ps[0]; }
      assert Join([sep], ps) == ps[0] + [sep] + Join([sep], ps[1..]);
      assert Join([sep], tail) == ps[0][1..] + [sep] + Join([sep], ps[1..]);
      assert ps[0] == [ps[0][0]] + ps[0][1..];
      assert s[0] == ps[0][0] && s[1..] == Join([sep], tail);
      forall i | 0 <= i < |tail| ensures sep !in tail[i] {
        if i == 0 {
          assert forall c :: c in ps[0][1..] ==> c in ps[0];
        } else {
          assert tail[i] == ps[i];
        }
      }
      SplitAllUnique(s[1..], sep, tail);
      assert ps == [[s[0]] + tail[0]] + tail[1..];
    }
  }

  /** `s.lstrip()`: the longest suffix of `s` that does not start with whitespace. */
  function LStrip(s: string): (r: string)
    ensures |r| <= |s|
  {
    if s != [] && IsSpace(s[0]) then LStrip(s[1..]) else s
  }

  /** `lstrip` keeps a suffix that does not start with whitespace, and
      everything it removes is whitespace. */
  lemma {:induction false} LStripSpec(s: string)
    ensures LStrip(s) == s[|s| - |LStrip(s)|..]
    ensures LStrip(s) == [] || !IsSpace(LStrip(s)[0])
    ensures forall k :: 0 <= k < |s| - |LStrip(s)| ==> IsSpace(s[k])
    decreases |s|
  {
    if s != [] && IsSpace(s[0]) {
      LStripSpec(s[1..]);
      assert s[1..][|s| - 1 - |LStrip(s)|..] == s[|s| - |LStrip(s)|..];
      forall k | 1 <= k < |s| - |LStrip(s)| ensures IsSpace(s[k]) {
        assert s[k] == s[1..][k - 1];
      }
    }
  }

  /** `s.rstrip()`: the longest prefix of `s` that does not end with whitespace. */
  function RStrip(s: string): (r: string)
    ensures |r| <= |s|
  {
    if s != [] && IsSpace(s[|s| - 1]) then RStrip(s[..|s| - 1]) else s
  }

  /** `rstrip` keeps a prefix that does not end with whitespace, and
      everything it removes is whitespace. */
  lemma {:induction false} RStripSpec(s: string)
    ensures RStrip(s) == s[..|RStrip(s)|]
    ensures RStrip(s) == [] || !IsSpace(RStrip(s)[|RStrip(s)| - 1])
    ensures forall k :: |RStrip(s)| <= k < |s| ==> IsSpace(s[k])
    decreases |s|
  {
    if s != [] && IsSpace(s[|s| - 1]) {
      RStripSpec(s[..|s| - 1]);
      assert s[..|s| - 1][..|RStrip(s)|] == s[..|RStrip(s)|];
      forall k | |RStrip(s)| <= k < |s| - 1 ensures IsSpace(s[k]) {
        assert s[k] == s[..|s| - 1][k];
      }
    }
  }

  /** `r` occurs in `s` starting at index `i`. */
  predicate OccursAt(s: string, r: string, i: int) {
    0 <= i && i + |r| <= |s| && s[i..i + |r|] == r
  }

  /** `s` neither starts nor ends with whitespace. */
  predicate Stripped(s: string) {
    s == [] || (!IsSpace(s[0]) && !IsSpace(s[|s| - 1]))
  }

  /** `s.strip()`: `s` without its leading and trailing whitespace. */
  function Strip(s: string): (r: string)
    ensures |r| <= |s|
  {
    RStrip(LStrip(s))
  }

  /** Stripping introduces no character. */
  lemma StripKeeps(s: string, c: char)
    requires c !in s
    ensures c !in Strip(s)
  {
    var l := LStrip(s);
    LStripSpec(s);
    RStripSpec(l);
    assert forall x :: x in l ==> x in s;
    assert forall x :: x in RStrip(l) ==> x in l;
  }

  /** `strip` leaves no whitespace at either end. */
  lemma StripStripped(s: string)
    ensures Stripped(Strip(s))
  {
    var l := LStrip(s);
    LStripSpec(s);
    RStripSpec(l);
    var r := RStrip(l);
    if r != [] {
      assert r[0] == l[0];
    }
  }

  /** What `strip` removes is whitespace on either side of an infix of `s`. */
  lemma StripIsInfix(s: string)
    ensures exists i :: OccursAt(s, Strip(s), i)
                        && (forall k :: 0 <= k < i ==> IsSpace(s[k]))
                        && (forall k :: i + |Strip(s)| <= k < |s| ==> IsSpace(s[k]))
  {
    var l := LStrip(s);
    var r := RStrip(l);
    var i := |s| - |l|;
    LStripSpec(s);
    RStripSpec(l);
    assert Strip(s) == r;
    assert s[i..i + |r|] == r;
    assert forall k :: i + |r| <= k < |s| ==> s[k] == l[k - i];
    assert OccursAt(s, r, i);
  }

  function LowerChar(c: char): char {
    if 'A' <= c <= 'Z' then (c as int + 32) as char else c
  }

  function UpperChar(c: char): char {
    if 'a' <= c <= 'z' then (c as int - 32) as char else c
  }

  /** `s.lower()` on ASCII letters. */
  function Lower(s: string): (r: string)
    ensures |r| == |s|
  {
    seq(|s|, i requires 0 <= i < |s| => LowerChar(s[i]))
  }

  /** ASCII upper-casing: the normalisation that relates a DOCX heading to
      the upper-case literal the PDF writes in its place. */
  function Upper(s: string): (r: string)
    ensures |r| == |s|
  {
    seq(|s|, i requires 0 <= i < |s| => UpperChar(s[i]))
  }

  /** `lower()` leaves no capital letter, turns each capital into its
      small letter and keeps every other character. */
  lemma LowerSpec(s: string)
    ensures forall i :: 0 <= i < |s| ==> !('A' <= Lower(s)[i] <= 'Z')
    ensures forall i :: 0 <= i < |s| && 'A' <= s[i] <= 'Z' ==> Lower(s)[i] as int == s[i] as int + 32
    ensures forall i :: 0 <= i < |s| && !('A' <= s[i] <= 'Z') ==> Lower(s)[i] == s[i]
  {
  }

  /** `Upper` leaves no small letter, turns each small letter into its
      capital and keeps every other character. */
  lemma UpperSpec(s: string)
    ensures forall i :: 0 <= i < |s| ==> !('a' <= Upper(s)[i] <= 'z')
    ensures forall i :: 0 <= i < |s| && 'a' <= s[i] <= 'z' ==> Upper(s)[i] as int == s[i] as int - 32
    ensures forall i :: 0 <= i < |s| && !('a' <= s[i] <= 'z') ==> Upper(s)[i] == s[i]
  {
  }

  /** `s.replace(a, b)` for single characters: no `a` is left (unless `b`
      is `a`), and every other character stays where it was. */
  function Replace(s: string, a: char, b: char): (r: string)
    ensures |r| == |s|
    ensures a != b ==> a !in r
    ensures forall i :: 0 <= i < |s| && s[i] == a ==> r[i] == b
    ensures forall i :: 0 <= i < |s| && s[i] != a ==> r[i] == s[i]
  {
    seq(|s|, i requires 0 <= i < |s| => if s[i] == a then b else s[i])
  }

  /** `s.startswith(p)`. */
  predicate StartsWith(s: string, p: string) {
    |p| <= |s| && s[..|p|] == p
  }

  /** `sub in s`, scanning from the left. */
  predicate Contains(s: string, sub: string) {
    StartsWith(s, sub) || (s != [] && Contains(s[1..], sub))
  }

  /** The scan finds `sub` exactly when it occurs somewhere in `s`. */
  lemma {:induction false} ContainsIff(s: string, sub: string)
    ensures Contains(s, sub) <==> exists i :: OccursAt(s, sub, i)
  {
    if s == [] {
      if sub == [] {
        assert OccursAt(s, sub, 0);
      }
      if exists i :: OccursAt(s, sub, i) {
        var i :| OccursAt(s, sub, i);
        assert sub == [];
      }
    } else {
      ContainsIff(s[1..], sub);
      if StartsWith(s, sub) {
        assert OccursAt(s, sub, 0);
      }
      if Contains(s[1..], sub) {
        var i :| OccursAt(s[1..], sub, i);
        assert s[i + 1..i + 1 + |sub|] == s[1..][i..i + |sub|];
        assert OccursAt(s, sub, i + 1);
      }
      if exists i :: OccursAt(s, sub, i) {
        var i :| OccursAt(s, sub, i);
        if i == 0 {
          assert s[..|sub|] == s[0..|sub|];
          assert StartsWith(s, sub);
        } else {
          assert s[1..][i - 1..i - 1 + |sub|] == s[i..i + |sub|];
          assert OccursAt(s[1..], sub, i - 1);
          assert Contains(s[1..], sub);
        }
        assert Contains(s, sub);
      }
    }
  }

  /** An element of a joined list occurs in the joined string. */
  lemma {:induction false} JoinContains(sep: string, xs: seq<string>, i: int)
    requires 0 <= i < |xs|
    ensures Contains(Join(sep, xs), xs[i])
  {
    var j := Join(sep, xs);
    if |xs| == 1 {
      assert OccursAt(j, xs[i], 0);
    } else if i == 0 {
      assert j[..|xs[0]|] == xs[0];
      assert OccursAt(j, xs[i], 0);
    } else {
      var rest := Join(sep, xs[1..]);
      JoinContains(sep, xs[1..], i - 1);
      ContainsIff(rest, xs[i]);
      var k :| OccursAt(rest, xs[i], k);
      var off := |xs[0]| + |sep|;
      assert j == xs[0] + sep + rest;
      assert j[off + k..off + k + |xs[i]|] == rest[k..k + |xs[i]|];
      assert OccursAt(j, xs[i], off + k);
    }
    ContainsIff(j, xs[i]);
  }
}
