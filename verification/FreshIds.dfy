// Ids the editor makes up: candidates numbered by a counter until one is free.
module FreshIds {
  import opened Digraph
  import opened OrderedSets
  import opened Text

  // ---------------------------------------------------------- candidates

  /** First the plain id, then the prefix with one number after another. */
  function Candidate(plain: string, prefix: string, base: nat, i: nat): string {
    if i == 0 then plain else prefix + Decimal(base + i)
  }

  /** The plain id is none of the numbered ones. */
  ghost predicate Distinguishable(plain: string, prefix: string, base: nat) {
    forall k: nat :: k > base ==> plain != prefix + Decimal(k)
  }

  ghost predicate AllTaken(plain: string, prefix: string, base: nat, i: nat, existing: seq<string>) {
    forall j: nat :: j < i ==> Candidate(plain, prefix, base, j) in existing
  }

  /** `id` is the first free candidate. */
  ghost predicate FirstFree(plain: string, prefix: string, base: nat, i: nat, existing: seq<string>, id: string) {
    id == Candidate(plain, prefix, base, i) && id !in existing && AllTaken(plain, prefix, base, i, existing)
  }

  lemma CandidatesDiffer(plain: string, prefix: string, base: nat, i: nat, j: nat)
    requires Distinguishable(plain, prefix, base) && i < j
    ensures Candidate(plain, prefix, base, i) != Candidate(plain, prefix, base, j)
  {
    if i > 0 {
      var a, b := prefix + Decimal(base + i), prefix + Decimal(base + j);
      if a == b {
        assert a[|prefix|..] == Decimal(base + i) && b[|prefix|..] == Decimal(base + j);
        DecimalIsInjective(base + i, base + j);
      }
    }
  }

  /** Pigeonhole: no more candidates are taken than there are ids. */
  lemma TakenAreFew(plain: string, prefix: string, base: nat, i: nat, existing: seq<string>)
    requires Distinguishable(plain, prefix, base) && AllTaken(plain, prefix, base, i, existing)
    ensures i <= |existing|
  {
    var taken := seq(i, j requires 0 <= j < i => Candidate(plain, prefix, base, j));
    forall a, b | 0 <= a < b < i ensures taken[a] != taken[b] {
      CandidatesDiffer(plain, prefix, base, a, b);
    }
    NoDuplicatesBounded(taken, Elements(existing));
    ElementsAreFew(existing);
  }

  lemma {:induction false} ElementsAreFew(s: seq<string>)
    ensures |Elements(s)| <= |s|
  {
    if s != [] {
      ElementsAreFew(s[..|s| - 1]);
      assert s == s[..|s| - 1] + [s[|s| - 1]];
      ElementsSnoc(s[..|s| - 1], s[|s| - 1]);
    }
  }

  lemma LongerIsDistinguishable(plain: string, prefix: string, base: nat)
    requires |plain| <= |prefix|
    ensures Distinguishable(plain, prefix, base)
  {
    forall k: nat | k > base ensures plain != prefix + Decimal(k) {
      NumeralsHaveDigits(k);
    }
  }

  // ---------------------------------------------------------- the counters

  predicate Alphanumeric(c: char) {
    'A' <= c <= 'Z' || 'a' <= c <= 'z' || '0' <= c <= '9'
  }

  function Lower(c: char): char {
    if 'A' <= c <= 'Z' then (c as int + 32) as char else c
  }

  /** The last part of a node type, letters and digits only, in lower case. */
  function Stem(nodeType: string): string {
    var parts := Split(nodeType, '.');
    var letters := Kept(parts[|parts| - 1], c => Alphanumeric(c));
    if letters == "" then "node" else seq(|letters|, i requires 0 <= i < |letters| => Lower(letters[i]))
  }

  lemma {:induction false} LettersOnly(part: string)
    requires forall c :: c in part ==> Alphanumeric(c)
    ensures Kept(part, c => Alphanumeric(c)) == part
  {
    if part != "" {
      LettersOnly(part[..|part| - 1]);
      assert part[|part| - 1] in part && part == part[..|part| - 1] + [part[|part| - 1]];
    }
  }

  lemma {:induction false} OthersDrop(before: string, c: char, after: string)
    requires !Alphanumeric(c)
    ensures Kept(before + [c] + after, d => Alphanumeric(d)) == Kept(before + after, d => Alphanumeric(d))
  {
    var keep := d => Alphanumeric(d);
    if after == "" {
      KeptSnoc(before, c, keep);
      assert before + [c] + after == before + [c] && before + after == before;
    } else {
      var init, last := after[..|after| - 1], after[|after| - 1];
      OthersDrop(before, c, init);
      assert before + [c] + after == (before + [c] + init) + [last] && before + after == (before + init) + [last];
      KeptSnoc(before + [c] + init, last, keep);
      KeptSnoc(before + init, last, keep);
    }
  }

  /** An id is made from what follows the last dot of a node type, and is `node` if there is nothing. */
  lemma StemsAreOfTheLastPart(prefix: string, part: string)
    requires '.' !in part
    ensures Stem(prefix + "." + part) == Stem(part) && Stem("") == "node"
  {
    SplitSnoc(prefix, part, '.');
    PiecesHoldNoSeparator(part, '.');
    assert Split(part, '.') == [part];
    assert Split("", '.') == [""];
  }

  /** Of that part other characters than letters and digits are dropped. */
  lemma StemsDropMarks(before: string, c: char, after: string)
    requires '.' !in before && '.' !in after && c != '.'
    requires !('a' <= c <= 'z') && !('A' <= c <= 'Z') && !('0' <= c <= '9')
    ensures Stem(before + [c] + after) == Stem(before + after)
  {
    PiecesHoldNoSeparator(before + after, '.');
    PiecesHoldNoSeparator(before + [c] + after, '.');
    OthersDrop(before, c, after);
  }

  /** Letters and digits are kept in their order, the letters in lower case. */
  lemma StemsKeepLetters(part: string)
    requires part != "" && forall c :: c in part ==> 'a' <= c <= 'z' || 'A' <= c <= 'Z' || '0' <= c <= '9'
    ensures |Stem(part)| == |part|
    ensures forall k :: 0 <= k < |part| ==>
      Stem(part)[k] == if 'A' <= part[k] <= 'Z' then (part[k] as int + 32) as char else part[k]
  {
    PiecesHoldNoSeparator(part, '.');
    LettersOnly(part);
  }

  /** The two module-level counters; they only ever grow. */
  class IdMint {
    var nodeCounter: nat
    var edgeCounter: nat

    constructor ()
      ensures nodeCounter == edgeCounter == 0
    {
      nodeCounter, edgeCounter := 0, 0;
    }

    method NextNodeId(nodeType: string, existing: seq<Id>) returns (candidate: Id)
      modifies this`nodeCounter
      ensures candidate !in existing
      ensures nodeCounter >= old(nodeCounter)
      ensures FirstFree(Stem(nodeType), Stem(nodeType), old(nodeCounter), nodeCounter - old(nodeCounter), existing, candidate)
      ensures candidate == Stem(nodeType) + if nodeCounter == old(nodeCounter) then "" else Decimal(nodeCounter)
    {
      var stem := Stem(nodeType);
      LongerIsDistinguishable(stem, stem, nodeCounter);
      candidate := stem;
      while candidate in existing
        invariant nodeCounter >= old(nodeCounter)
        invariant candidate == Candidate(stem, stem, old(nodeCounter), nodeCounter - old(nodeCounter))
        invariant AllTaken(stem, stem, old(nodeCounter), nodeCounter - old(nodeCounter), existing)
        decreases |existing| + 1 - (nodeCounter - old(nodeCounter))
      {
        TakenAreFew(stem, stem, old(nodeCounter), nodeCounter - old(nodeCounter) + 1, existing);
        nodeCounter := nodeCounter + 1;
        candidate := stem + Decimal(nodeCounter);
      }
    }

    method NextEdgeId(source: Id, target: Id, existing: seq<string>) returns (candidate: string)
      modifies this`edgeCounter
      ensures candidate !in existing
      ensures edgeCounter >= old(edgeCounter)
      ensures FirstFree(source + "-" + target, source + "-" + target + "-", old(edgeCounter),
                        edgeCounter - old(edgeCounter), existing, candidate)
      ensures candidate == source + "-" + target + if edgeCounter == old(edgeCounter) then "" else "-" + Decimal(edgeCounter)
    {
      var plain := source + "-" + target;
      var prefix := plain + "-";
      LongerIsDistinguishable(plain, prefix, edgeCounter);
      candidate := plain;
      while candidate in existing
        invariant edgeCounter >= old(edgeCounter)
        invariant candidate == Candidate(plain, prefix, old(edgeCounter), edgeCounter - old(edgeCounter))
        invariant AllTaken(plain, prefix, old(edgeCounter), edgeCounter - old(edgeCounter), existing)
        decreases |existing| + 1 - (edgeCounter - old(edgeCounter))
      {
        TakenAreFew(plain, prefix, old(edgeCounter), edgeCounter - old(edgeCounter) + 1, existing);
        edgeCounter := edgeCounter + 1;
        candidate := prefix + Decimal(edgeCounter);
      }
    }
  }
}
