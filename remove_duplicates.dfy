/**
 * The "Remove duplicates" text function: it keeps the first occurrence of
 * each character, in the order of the input.
 */
module TextFunctionRemoveDuplicates {
  import opened JavaLang

  /**
   * Reference definition: a character is kept exactly when it does not occur
   * earlier in the input.
   */
  function Dedup(s: seq<Char16>): seq<Char16>
  {
    if s == [] then []
    else
      var p := s[..|s| - 1];
      if s[|s| - 1] in p then Dedup(p) else Dedup(p) + [s[|s| - 1]]
  }

  ghost predicate NoDuplicates(s: seq<Char16>) {
    forall i, j :: 0 <= i < j < |s| ==> s[i] != s[j]
  }

  /** The index of the first occurrence of `c` in `s`. */
  function FirstIndex(s: seq<Char16>, c: Char16): (i: nat)
    requires c in s
    ensures i < |s| && s[i] == c && c !in s[..i]
  {
    if s[0] == c then 0
    else
      var j := FirstIndex(s[1..], c);
      assert s[..j + 1] == [s[0]] + s[1..][..j];
      j + 1
  }

  /** The filtering loop: a seen-set and the list of first occurrences, built in one pass. */
  method Process(cs: seq<Char16>) returns (xs: seq<Char16>)
    ensures xs == Dedup(cs)
    ensures NoDuplicates(xs)
    ensures forall c :: c in xs <==> c in cs
  {
    var m: set<Char16> := {};
    xs := [];
    for index := 0 to |cs|
      invariant forall c :: c in m <==> c in cs[..index]
      invariant xs == Dedup(cs[..index])
    {
      var c := cs[index];
      assert cs[..index + 1][..index] == cs[..index];
      if c !in m {
        xs := xs + [c];
      }
      m := m + {c};
    }
    assert cs[..|cs|] == cs;
    DedupElements(cs);
    DedupNoDuplicates(cs);
  }

  /** The output holds exactly the characters of the input: none is lost and none is made up. */
  lemma {:induction false} DedupElements(s: seq<Char16>)
    ensures forall c :: c in Dedup(s) <==> c in s
  {
    if s != [] {
      var p := s[..|s| - 1];
      assert s == p + [s[|s| - 1]];
      DedupElements(p);
    }
  }

  /** No character occurs twice in the output. */
  lemma {:induction false} DedupNoDuplicates(s: seq<Char16>)
    ensures NoDuplicates(Dedup(s))
  {
    if s != [] {
      var p := s[..|s| - 1];
      DedupNoDuplicates(p);
      DedupElements(p);
    }
  }

  /** Every character of the input occurs in the output exactly once, every other character never. */
  lemma {:induction false} DedupOccursOnce(s: seq<Char16>, c: Char16)
    ensures multiset(Dedup(s))[c] == if c in s then 1 else 0
  {
    if s != [] {
      var p := s[..|s| - 1];
      assert s == p + [s[|s| - 1]];
      DedupOccursOnce(p, c);
    }
  }

  lemma NoDuplicatesSnoc(p: seq<Char16>, c: Char16)
    ensures NoDuplicates(p + [c]) <==> NoDuplicates(p) && c !in p
  {
    var s := p + [c];
    if NoDuplicates(s) {
      assert forall i, j :: 0 <= i < j < |p| ==> p[i] == s[i] && p[j] == s[j];
      forall k | 0 <= k < |p| ensures p[k] != c {
        assert s[k] == p[k] && s[|p|] == c;
      }
    }
  }

  /**
   * The output is never longer than the input, and it is as long exactly when
   * the input has no duplicates, in which case it is the input itself.
   */
  lemma {:induction false} DedupLength(s: seq<Char16>)
    ensures |Dedup(s)| <= |s|
    ensures |Dedup(s)| == |s| <==> NoDuplicates(s)
    ensures NoDuplicates(s) ==> Dedup(s) == s
  {
    if s != [] {
      var p := s[..|s| - 1];
      var c := s[|s| - 1];
      assert s == p + [c];
      DedupLength(p);
      NoDuplicatesSnoc(p, c);
    }
  }

  /** Removing duplicates twice is removing them once. */
  lemma DedupIdempotent(s: seq<Char16>)
    ensures Dedup(Dedup(s)) == Dedup(s)
  {
    DedupNoDuplicates(s);
    DedupLength(Dedup(s));
  }

  lemma FirstIndexSnoc(p: seq<Char16>, c: Char16, x: Char16)
    requires x in p
    ensures FirstIndex(p + [c], x) == FirstIndex(p, x)
  {
    var s := p + [c];
    var i, j := FirstIndex(s, x), FirstIndex(p, x);
    assert s[j] == x;
    assert x !in s[..i];
    assert i <= j;
    assert p[i] == x && x !in p[..j];
    assert j <= i;
  }

  /**
   * The output keeps first occurrences in their original order: of two output
   * characters, the earlier one first occurs earlier in the input.
   */
  lemma {:induction false} DedupKeepsFirstOccurrenceOrder(s: seq<Char16>, k: nat, l: nat)
    requires k < l < |Dedup(s)|
    ensures Dedup(s)[k] in s && Dedup(s)[l] in s
    ensures FirstIndex(s, Dedup(s)[k]) < FirstIndex(s, Dedup(s)[l])
  {
    var p := s[..|s| - 1];
    var c := s[|s| - 1];
    assert s == p + [c];
    var d := Dedup(p);
    DedupElements(p);
    DedupElements(s);
    if l < |d| {
      DedupKeepsFirstOccurrenceOrder(p, k, l);
      FirstIndexSnoc(p, c, d[k]);
      FirstIndexSnoc(p, c, d[l]);
    } else {
      assert Dedup(s) == d + [c] && c !in p;
      assert d[k] in p;
      FirstIndexSnoc(p, c, d[k]);
      assert FirstIndex(s, c) == |p| by {
        assert c !in s[..|p|];
      }
    }
  }
}
