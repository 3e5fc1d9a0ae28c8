// String primitives shared by the template resolver and the editor model.
module Text {
  datatype Found = Missing | At(index: nat)

  /** Unicode White_Space, as `str::trim` uses it. */
  predicate IsWhite(c: char) {
    var n := c as int;
    (9 <= n <= 13) || n == 0x20 || n == 0x85 || n == 0xA0 || n == 0x1680 || (0x2000 <= n <= 0x200A) ||
    n == 0x2028 || n == 0x2029 || n == 0x202F || n == 0x205F || n == 0x3000
  }

  function TrimStart(s: string): (r: string)
    ensures |r| <= |s|
  {
    if s != "" && IsWhite(s[0]) then TrimStart(s[1..]) else s
  }

  function TrimEnd(s: string): (r: string)
    ensures |r| <= |s|
  {
    if s != "" && IsWhite(s[|s| - 1]) then TrimEnd(s[..|s| - 1]) else s
  }

  lemma {:induction false} TrimStartSplits(s: string)
    ensures var r := TrimStart(s);
      r == s[|s| - |r|..] && AllWhite(s[..|s| - |r|]) && (r != "" ==> !IsWhite(r[0]))
  {
    if s != "" && IsWhite(s[0]) {
      TrimStartSplits(s[1..]);
      var r := TrimStart(s);
      assert s[..|s| - |r|] == [s[0]] + s[1..][..|s[1..]| - |r|];
    }
  }

  lemma {:induction false} TrimEndSplits(s: string)
    ensures var r := TrimEnd(s);
      r == s[..|r|] && AllWhite(s[|r|..]) && (r != "" ==> !IsWhite(r[|r| - 1]))
  {
    if s != "" && IsWhite(s[|s| - 1]) {
      TrimEndSplits(s[..|s| - 1]);
      var r := TrimEnd(s);
      assert s[|r|..] == s[..|s| - 1][|r|..] + [s[|s| - 1]];
    }
  }

  function Trim(s: string): string {
    TrimEnd(TrimStart(s))
  }

  ghost predicate AllWhite(s: string) {
    forall c :: c in s ==> IsWhite(c)
  }

  /** Trimming splits a string into white space, a core that needs no trimming, and white space. */
  lemma TrimSplits(s: string) returns (lead: string, trail: string)
    ensures s == lead + Trim(s) + trail && AllWhite(lead) && AllWhite(trail)
    ensures Trim(Trim(s)) == Trim(s)
    ensures Trim(s) != "" ==> !IsWhite(Trim(s)[0]) && !IsWhite(Trim(s)[|Trim(s)| - 1])
  {
    var t := TrimStart(s);
    var u := TrimEnd(t);
    TrimStartSplits(s);
    TrimEndSplits(t);
    lead, trail := s[..|s| - |t|], t[|u|..];
    assert t == u + trail;
  }

  /** Padding a string that needs no trimming does not change what trimming yields. */
  lemma TrimPadded(lead: string, core: string, trail: string)
    requires AllWhite(lead) && AllWhite(trail)
    requires core != "" ==> !IsWhite(core[0]) && !IsWhite(core[|core| - 1])
    ensures Trim(lead + core + trail) == core
  {
    if core == "" {
      assert forall c :: c in lead + core + trail ==> IsWhite(c);
      TrimAllWhite(lead + core + trail);
    } else {
      TrimStartPadded(lead, core + trail);
      assert lead + core + trail == lead + (core + trail);
      TrimEndPadded(core, trail);
    }
  }

  lemma {:induction false} TrimAllWhite(s: string)
    requires AllWhite(s)
    ensures Trim(s) == ""
  {
    if s != "" {
      TrimAllWhite(s[1..]);
    }
  }

  lemma {:induction false} TrimStartPadded(lead: string, rest: string)
    requires AllWhite(lead) && (rest != "" ==> !IsWhite(rest[0]))
    ensures TrimStart(lead + rest) == rest
  {
    if lead == "" {
      assert lead + rest == rest;
    } else {
      assert lead[0] in lead;
      assert (lead + rest)[1..] == lead[1..] + rest;
      TrimStartPadded(lead[1..], rest);
    }
  }

  lemma {:induction false} TrimEndPadded(core: string, trail: string)
    requires AllWhite(trail) && (core != "" ==> !IsWhite(core[|core| - 1]))
    ensures TrimEnd(core + trail) == core
  {
    if trail == "" {
      assert core + trail == core;
    } else {
      var last := |core + trail| - 1;
      assert (core + trail)[last] == trail[|trail| - 1] && trail[|trail| - 1] in trail;
      assert (core + trail)[..last] == core + trail[..|trail| - 1];
      TrimEndPadded(core, trail[..|trail| - 1]);
    }
  }

  predicate StartsWith(s: string, p: string) {
    |p| <= |s| && s[..|p|] == p
  }

  predicate EndsWith(s: string, p: string) {
    |p| <= |s| && s[|s| - |p|..] == p
  }

  predicate OccursAt(s: string, p: string, i: int) {
    0 <= i && i + |p| <= |s| && s[i..i + |p|] == p
  }

  lemma OccursInTail(s: string, p: string, i: int)
    requires s != "" && i >= 1
    ensures OccursAt(s, p, i) <==> OccursAt(s[1..], p, i - 1)
  {
    if i + |p| <= |s| {
      var a, b := s[i..i + |p|], s[1..][i - 1..i - 1 + |p|];
      assert |a| == |b| && forall k :: 0 <= k < |a| ==> a[k] == b[k];
      assert a == b;
    }
  }

  /** Leftmost occurrence of a non-empty pattern. */
  function Find(s: string, p: string): (r: Found)
    requires p != ""
    ensures r.At? ==> r.index + |p| <= |s|
  {
    if |s| < |p| then Missing
    else if s[..|p|] == p then At(0)
    else
      var rest := Find(s[1..], p);
      if rest.At? then At(rest.index + 1) else Missing
  }

  lemma {:induction false} FindIsLeftmost(s: string, p: string)
    requires p != ""
    ensures Find(s, p).At? ==> OccursAt(s, p, Find(s, p).index)
    ensures forall i :: OccursAt(s, p, i) ==> Find(s, p).At? && Find(s, p).index <= i
  {
    if |s| >= |p| && s[..|p|] != p {
      FindIsLeftmost(s[1..], p);
      forall i | OccursAt(s, p, i) ensures Find(s, p).At? && Find(s, p).index <= i {
        OccursInTail(s, p, i);
      }
      if Find(s, p).At? {
        OccursInTail(s, p, Find(s, p).index);
      }
    }
  }

  predicate Contains(s: string, p: string)
    requires p != ""
  {
    Find(s, p).At?
  }

  /** A character stands next to itself. */
  ghost predicate Doubled(s: string, d: char) {
    exists i :: 0 <= i < |s| - 1 && s[i] == d && s[i + 1] == d
  }

  lemma DoubledIsContained(s: string, d: char)
    ensures Doubled(s, d) <==> Contains(s, [d, d])
  {
    FindIsLeftmost(s, [d, d]);
    if Doubled(s, d) {
      var i :| 0 <= i < |s| - 1 && s[i] == d && s[i + 1] == d;
      assert OccursAt(s, [d, d], i);
    }
    if Contains(s, [d, d]) {
      var i := Find(s, [d, d]).index;
      assert s[i..i + 2][0] == s[i] && s[i..i + 2][1] == s[i + 1];
    }
  }

  /** Pieces between separators; never empty, as with `str::split`. */
  function Split(s: string, sep: char): (r: seq<string>)
    ensures |r| >= 1
  {
    if s == "" then [""]
    else if s[0] == sep then [""] + Split(s[1..], sep)
    else
      var rest := Split(s[1..], sep);
      [[s[0]] + rest[0]] + rest[1..]
  }

  /** No piece holds the separator, and text without it is one piece. */
  lemma {:induction false} PiecesHoldNoSeparator(s: string, sep: char)
    ensures forall piece :: piece in Split(s, sep) ==> sep !in piece
    ensures sep !in s ==> Split(s, sep) == [s]
  {
    if s != "" {
      PiecesHoldNoSeparator(s[1..], sep);
      assert s == [s[0]] + s[1..];
    }
  }

  /** One more piece behind a separator is one more part. */
  lemma {:induction false} SplitSnoc(s: string, piece: string, sep: char)
    requires sep !in piece
    ensures Split(s + [sep] + piece, sep) == Split(s, sep) + [piece]
  {
    if s == "" {
      assert (s + [sep] + piece)[1..] == piece;
      PiecesHoldNoSeparator(piece, sep);
    } else {
      assert (s + [sep] + piece)[1..] == s[1..] + [sep] + piece;
      SplitSnoc(s[1..], piece, sep);
    }
  }

  // ------------------------------------------------------ decimal numerals

  function Digit(d: nat): char
    requires d < 10
  {
    ('0' as nat + d) as char
  }

  function Decimal(n: nat): string {
    if n < 10 then [Digit(n)] else Decimal(n / 10) + [Digit(n % 10)]
  }

  lemma {:induction false} DecimalIsInjective(m: nat, n: nat)
    requires Decimal(m) == Decimal(n)
    ensures m == n
    decreases m
  {
    var s, t := Decimal(m), Decimal(n);
    assert s[|s| - 1] == Digit(m % 10) && t[|t| - 1] == Digit(n % 10);
    NumeralsHaveDigits(m);
    NumeralsHaveDigits(n);
    if m >= 10 && n >= 10 {
      assert s[..|s| - 1] == Decimal(m / 10) && t[..|t| - 1] == Decimal(n / 10);
      DecimalIsInjective(m / 10, n / 10);
    }
  }

  lemma NumeralsHaveDigits(n: nat)
    ensures |Decimal(n)| >= 1
    ensures |Decimal(n)| == 1 <==> n < 10
  {
    if n >= 10 {
      assert |Decimal(n / 10)| >= 1 by {
        if n / 10 >= 10 {
          assert Decimal(n / 10) != [];
        }
      }
    }
  }
}
