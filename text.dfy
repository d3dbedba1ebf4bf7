/**
 * The JavaScript string operations the handlers and the edit form rely on:
 * startsWith, a first-occurrence replace, case-insensitive substring search
 * (the `$regex` filters with option 'i', read as a literal pattern with
 * ASCII case folding), trim, split on one character and join.
 */
module Text {

  // ---------------------------------------------------------------- prefixes

  predicate StartsWith(s: string, p: string)
  {
    |p| <= |s| && s[..|p|] == p
  }

  // ---------------------------------------------------------------- substrings

  /** p occurs in s at index i. */
  predicate OccursAt(s: string, p: string, i: int)
  {
    0 <= i && i + |p| <= |s| && s[i..i + |p|] == p
  }

  /** p occurs somewhere in s, scanning from the left. */
  predicate Contains(s: string, p: string)
    decreases |s|
  {
    StartsWith(s, p) || (|s| > 0 && Contains(s[1..], p))
  }

  lemma {:induction false} ContainsIffOccurs(s: string, p: string)
    ensures Contains(s, p) <==> exists i :: OccursAt(s, p, i)
    decreases |s|
  {
    if StartsWith(s, p) {
      assert OccursAt(s, p, 0);
    } else {
      assert !OccursAt(s, p, 0) by {
        if |p| <= |s| { assert s[0..|p|] == s[..|p|]; }
      }
      if |s| > 0 {
        forall i | 1 <= i ensures OccursAt(s, p, i) <==> OccursAt(s[1..], p, i - 1) {
          if i + |p| <= |s| { assert s[1..][i - 1..i - 1 + |p|] == s[i..i + |p|]; }
        }
        ContainsIffOccurs(s[1..], p);
        if Contains(s[1..], p) {
          var i :| OccursAt(s[1..], p, i);
          assert OccursAt(s, p, i + 1);
        }
      }
    }
  }

  /** ASCII case folding, the folding the model uses for the 'i' option. */
  function Lower(c: char): char
  {
    if 'A' <= c <= 'Z' then (c as int + 32) as char else c
  }

  function Fold(s: string): (r: string)
    ensures |r| == |s|
    ensures forall i :: 0 <= i < |s| ==> r[i] == Lower(s[i])
  {
    seq(|s|, i requires 0 <= i < |s| => Lower(s[i]))
  }

  /** Folding an already folded string changes nothing. */
  lemma FoldIdempotent(s: string)
    ensures Fold(Fold(s)) == Fold(s)
  {
  }

  /** `$regex: p, $options: 'i'` on a literal pattern p. */
  predicate ContainsCI(s: string, p: string)
  {
    Contains(Fold(s), Fold(p))
  }

  /** Case-insensitive search finds p at some position of s, up to ASCII case. */
  lemma ContainsCIIffOccurs(s: string, p: string)
    ensures ContainsCI(s, p) <==> exists i :: OccursAt(Fold(s), Fold(p), i)
  {
    ContainsIffOccurs(Fold(s), Fold(p));
  }

  // ---------------------------------------------------------------- replace

  /** `s.replace(p, '')` with a string pattern: only the first occurrence goes. */
  function RemoveFirst(s: string, p: string): (r: string)
    requires p != ""
    ensures |r| <= |s|
    ensures StartsWith(s, p) ==> r == s[|p|..]
    ensures !Contains(s, p) ==> r == s
    decreases |s|
  {
    if StartsWith(s, p) then s[|p|..]
    else if |s| == 0 then s
    else [s[0]] + RemoveFirst(s[1..], p)
  }

  /** Where p first occurs at i, exactly those |p| characters are cut out and the rest is kept. */
  lemma {:induction false} RemoveFirstAt(s: string, p: string, i: int)
    requires p != "" && OccursAt(s, p, i)
    requires forall j :: 0 <= j < i ==> !OccursAt(s, p, j)
    ensures RemoveFirst(s, p) == s[..i] + s[i + |p|..]
    decreases i
  {
    if i == 0 {
      assert s[..|p|] == s[0..|p|];
    } else {
      assert !StartsWith(s, p) by {
        assert !OccursAt(s, p, 0);
        assert s[0..|p|] == s[..|p|];
      }
      var t := s[1..];
      assert OccursAt(t, p, i - 1) by { assert t[i - 1..i - 1 + |p|] == s[i..i + |p|]; }
      forall j | 0 <= j < i - 1 ensures !OccursAt(t, p, j) {
        assert !OccursAt(s, p, j + 1);
        if j + |p| <= |t| { assert t[j..j + |p|] == s[j + 1..j + 1 + |p|]; }
      }
      RemoveFirstAt(t, p, i - 1);
      assert t[..i - 1] == s[1..i];
      assert t[i - 1 + |p|..] == s[i + |p|..];
      assert [s[0]] + s[1..i] == s[..i];
    }
  }

  // ---------------------------------------------------------------- trim

  /** The characters JavaScript's trim removes: WhiteSpace and LineTerminator. */
  predicate IsSpace(c: char)
  {
    c == '\t' || c == '\n' || c == '\U{000B}' || c == '\U{000C}' || c == '\r'
    || c == ' ' || c == '\U{00A0}' || c == '\U{1680}'
    || ('\U{2000}' <= c <= '\U{200A}')
    || c == '\U{2028}' || c == '\U{2029}' || c == '\U{202F}' || c == '\U{205F}'
    || c == '\U{3000}' || c == '\U{FEFF}'
  }

  /** Drop the leading white space: what remains is a suffix that does not start with white space. */
  function TrimStart(s: string): (r: string)
    ensures |r| <= |s|
    ensures r == s[|s| - |r|..]
    ensures r == [] || !IsSpace(r[0])
    decreases |s|
  {
    if |s| > 0 && IsSpace(s[0]) then TrimStart(s[1..]) else s
  }

  /** Drop the trailing white space: what remains is a prefix that does not end with white space. */
  function TrimEnd(s: string): (r: string)
    ensures |r| <= |s|
    ensures r == s[..|r|]
    ensures r == [] || !IsSpace(r[|r| - 1])
    decreases |s|
  {
    if |s| > 0 && IsSpace(s[|s| - 1]) then TrimEnd(s[..|s| - 1]) else s
  }

  /** Everything TrimStart drops is white space. */
  lemma {:induction false} TrimStartDropsSpace(s: string)
    ensures forall i :: 0 <= i < |s| - |TrimStart(s)| ==> IsSpace(s[i])
    decreases |s|
  {
    if |s| > 0 && IsSpace(s[0]) {
      TrimStartDropsSpace(s[1..]);
      forall i | 1 <= i < |s| - |TrimStart(s)| ensures IsSpace(s[i]) {
        assert s[i] == s[1..][i - 1];
      }
    }
  }

  /** Everything TrimEnd drops is white space. */
  lemma {:induction false} TrimEndDropsSpace(s: string)
    ensures forall i :: |TrimEnd(s)| <= i < |s| ==> IsSpace(s[i])
    decreases |s|
  {
    if |s| > 0 && IsSpace(s[|s| - 1]) {
      TrimEndDropsSpace(s[..|s| - 1]);
      forall i | |TrimEnd(s)| <= i < |s| - 1 ensures IsSpace(s[i]) {
        assert s[i] == s[..|s| - 1][i];
      }
    }
  }

  /** `s.trim()`: neither end of the result is white space. */
  function Trim(s: string): (r: string)
    ensures IsTrimmed(r)
  {
    var e := TrimEnd(s);
    var r := TrimStart(e);
    assert r != [] ==> r[|r| - 1] == e[|e| - 1];
    r
  }

  /** Trim keeps one stretch of s and drops only white space on either side of it. */
  lemma TrimStretch(s: string)
    ensures exists i :: Trimmed(s, Trim(s), i)
  {
    var e := TrimEnd(s);
    var r := TrimStart(e);
    var i := |e| - |r|;
    TrimEndDropsSpace(s);
    TrimStartDropsSpace(e);
    assert e == s[..|e|];
    assert r == s[i..i + |r|];
    forall k | 0 <= k < i ensures IsSpace(s[k]) { assert s[k] == e[k]; }
    assert Trim(s) == r;
    assert Trimmed(s, Trim(s), i);
  }

  /** r is s[i..i + |r|], and everything of s outside that stretch is white space. */
  predicate Trimmed(s: string, r: string, i: int)
  {
    && 0 <= i <= i + |r| <= |s|
    && r == s[i..i + |r|]
    && (forall k :: 0 <= k < i ==> IsSpace(s[k]))
    && (forall k :: i + |r| <= k < |s| ==> IsSpace(s[k]))
  }

  /** Neither end of s is white space. */
  predicate IsTrimmed(s: string)
  {
    s == [] || (!IsSpace(s[0]) && !IsSpace(s[|s| - 1]))
  }

  /** Trim always yields a trimmed string, and leaves trimmed strings alone. */
  lemma {:induction false} TrimSpec(s: string)
    ensures IsTrimmed(Trim(s))
    ensures IsTrimmed(s) <==> Trim(s) == s
  {
    var e := TrimEnd(s);
    var r := TrimStart(e);
    if r != [] {
      assert r == e[|e| - |r|..];
      assert r[|r| - 1] == e[|e| - 1];
    }
    if IsTrimmed(s) && s != [] {
      assert TrimEnd(s) == s;
      assert TrimStart(s) == s;
    }
  }

  /** Trimming twice is trimming once. */
  lemma TrimIdempotent(s: string)
    ensures Trim(Trim(s)) == Trim(s)
  {
    TrimSpec(s);
    TrimSpec(Trim(s));
  }

  /** A white-space character in front of s is trimmed away with the rest of the end white space. */
  lemma {:induction false} TrimEndCons(c: char, s: string)
    requires IsSpace(c)
    ensures TrimEnd([c] + s) == (if TrimEnd(s) == [] then [] else [c] + TrimEnd(s))
    decreases |s|
  {
    var t := [c] + s;
    if |s| == 0 {
      assert t[..0] == [];
    } else if IsSpace(s[|s| - 1]) {
      assert t[..|t| - 1] == [c] + s[..|s| - 1];
      TrimEndCons(c, s[..|s| - 1]);
    }
  }

  /** Leading white space never survives a trim. */
  lemma TrimCons(c: char, s: string)
    requires IsSpace(c)
    ensures Trim([c] + s) == Trim(s)
  {
    TrimEndCons(c, s);
    var e := TrimEnd(s);
    if e != [] {
      assert ([c] + e)[1..] == e;
    }
  }

  // ---------------------------------------------------------------- split and join

  /** `s.split(sep)`: the pieces between separators, [""] for the empty string. */
  function Split(s: string, sep: char): (r: seq<string>)
    ensures |r| >= 1
    decreases |s|
  {
    if |s| == 0 then [""]
    else
      var rest := Split(s[1..], sep);
      if s[0] == sep then [""] + rest
      else [[s[0]] + rest[0]] + rest[1..]
  }

  /** Joining the pieces back with the separator gives s. */
  lemma {:induction false} JoinSplit(s: string, sep: char)
    ensures Join(Split(s, sep), [sep]) == s
    decreases |s|
  {
    if |s| > 0 {
      var rest := Split(s[1..], sep);
      JoinSplit(s[1..], sep);
      assert [s[0]] + s[1..] == s;
      if s[0] == sep {
        assert ([""] + rest)[1..] == rest;
      } else {
        var r := [[s[0]] + rest[0]] + rest[1..];
        if |rest| > 1 {
          assert r[1..] == rest[1..];
        }
      }
    }
  }

  /** No piece of a split contains the separator. */
  lemma {:induction false} SplitPiecesFree(s: string, sep: char)
    ensures forall k :: 0 <= k < |Split(s, sep)| ==> sep !in Split(s, sep)[k]
    decreases |s|
  {
    if |s| > 0 {
      SplitPiecesFree(s[1..], sep);
    }
  }

  /** A string without the separator splits into itself alone. */
  lemma {:induction false} SplitFree(s: string, sep: char)
    requires sep !in s
    ensures Split(s, sep) == [s]
    decreases |s|
  {
    if |s| > 0 {
      assert sep !in s[1..] by {
        forall k | 0 <= k < |s[1..]| ensures s[1..][k] != sep { assert s[1..][k] == s[k + 1]; }
      }
      SplitFree(s[1..], sep);
      assert [s[0]] + s[1..] == s;
    }
  }

  /** Splitting distributes over a separator: the pieces on either side keep their order. */
  lemma {:induction false} SplitAround(a: string, sep: char, b: string)
    ensures Split(a + [sep] + b, sep) == Split(a, sep) + Split(b, sep)
    decreases |a|
  {
    var s := a + [sep] + b;
    if |a| == 0 {
      assert s[1..] == b;
    } else {
      assert s[1..] == a[1..] + [sep] + b;
      SplitAround(a[1..], sep, b);
    }
  }

  /** The total length of the pieces. */
  function TotalLength(parts: seq<string>): nat
    decreases |parts|
  {
    if |parts| == 0 then 0 else |parts[0]| + TotalLength(parts[1..])
  }

  /** `parts.join(sep)`: every piece once, with one separator between neighbours. */
  function Join(parts: seq<string>, sep: string): (r: string)
    ensures |parts| == 0 ==> r == ""
    ensures |parts| > 0 ==> |r| == TotalLength(parts) + (|parts| - 1) * |sep|
    ensures |parts| > 0 ==> StartsWith(r, parts[0])
    decreases |parts|
  {
    if |parts| == 0 then ""
    else if |parts| == 1 then parts[0]
    else parts[0] + sep + Join(parts[1..], sep)
  }

  /** Splitting a join of separator-free pieces gives the pieces back. */
  lemma {:induction false} SplitJoin(parts: seq<string>, sep: char)
    requires |parts| >= 1
    requires forall k :: 0 <= k < |parts| ==> sep !in parts[k]
    ensures Split(Join(parts, [sep]), sep) == parts
    decreases |parts|
  {
    if |parts| == 1 {
      SplitFree(parts[0], sep);
    } else {
      SplitJoin(parts[1..], sep);
      SplitAround(parts[0], sep, Join(parts[1..], [sep]));
      SplitFree(parts[0], sep);
      assert [parts[0]] + parts[1..] == parts;
    }
  }
}
