/**
 The collision-free destination name. When `name` is already taken in the
 category folder, the organiser probes `root (1)ext`, `root (2)ext`, ... and
 takes the first candidate that is free. A folder is modelled by the finite
 set of names it holds.
 */
module Collision {
  import opened Strings
  import opened PathName

  /** The n-th numbered candidate for `name`: root, space, counter in brackets, extension. */
  function Candidate(name: string, n: nat): string
  {
    SplitExt(name).0 + " (" + Decimal(n) + ")" + SplitExt(name).1
  }

  /** Every counter below `n`, from 1 on, yields a name that is already taken. */
  predicate TakenBelow(name: string, existing: set<string>, n: nat)
  {
    forall k :: 1 <= k < n ==> Candidate(name, k) in existing
  }

  /** The length of the longest name in a folder. */
  ghost function MaxLen(names: set<string>): (m: nat)
    ensures forall s :: s in names ==> |s| <= m
    decreases names
  {
    if names == {} then 0
    else
      var x :| x in names;
      var rest := MaxLen(names - {x});
      if |x| <= rest then rest else |x|
  }

  lemma CandidateLength(name: string, n: nat)
    ensures |Candidate(name, n)| == |name| + 3 + |Decimal(n)|
  {
  }

  /** A candidate never coincides with the name it was derived from. */
  lemma CandidateDiffers(name: string, n: nat)
    ensures Candidate(name, n) != name
  {
    CandidateLength(name, n);
  }

  /** Distinct counters give distinct candidates, so every probe asks about a new name. */
  lemma CandidateInjective(name: string, m: nat, n: nat)
    requires Candidate(name, m) == Candidate(name, n)
    ensures m == n
  {
    var (root, ext) := SplitExt(name);
    var cm, cn := Candidate(name, m), Candidate(name, n);
    CandidateLength(name, m);
    CandidateLength(name, n);
    var lo := |root| + 2;
    assert cm == root + " (" + Decimal(m) + ")" + ext;
    assert cm[lo..lo + |Decimal(m)|] == Decimal(m);
    assert cn[lo..lo + |Decimal(n)|] == Decimal(n);
    DecimalInjective(m, n);
  }

  /**
   A counter with more digits than the longest name in the folder gives a
   candidate longer than every name there, hence a free one: the probe
   cannot run forever.
   */
  lemma LongCandidateFresh(name: string, existing: set<string>, n: nat)
    requires n >= Pow10(MaxLen(existing))
    ensures Candidate(name, n) !in existing
  {
    DecimalLength(n, MaxLen(existing));
    CandidateLength(name, n);
  }

  /**
   The least counter, from `n` on, whose candidate is free, when every
   counter below `n` is known to be taken.
   */
  function Probe(name: string, existing: set<string>, n: nat): (r: nat)
    requires 1 <= n
    requires TakenBelow(name, existing, n)
    ensures n <= r
    ensures Candidate(name, r) !in existing
    ensures TakenBelow(name, existing, r)
    decreases Pow10(MaxLen(existing)) - n
  {
    if Candidate(name, n) !in existing then n
    else
      assert n < Pow10(MaxLen(existing)) by {
        if n >= Pow10(MaxLen(existing)) {
          LongCandidateFresh(name, existing, n);
        }
      }
      Probe(name, existing, n + 1)
  }

  /** A free counter with all smaller ones taken is the counter the probe finds. */
  lemma ProbeLeast(name: string, existing: set<string>, n: nat)
    requires 1 <= n
    requires TakenBelow(name, existing, n)
    requires Candidate(name, n) !in existing
    ensures Probe(name, existing, 1) == n
  {
    var r := Probe(name, existing, 1);
    assert !(r < n);
  }

  /**
   The destination name inside a category folder holding `existing`: the
   name itself when free, else the first free numbered candidate.
   */
  function Resolve(name: string, existing: set<string>): (r: string)
    ensures r !in existing
    ensures r == name <==> name !in existing
    ensures r != name ==>
              exists n :: 1 <= n && r == Candidate(name, n) && TakenBelow(name, existing, n)
  {
    if name !in existing then name
    else
      var n := Probe(name, existing, 1);
      CandidateDiffers(name, n);
      Candidate(name, n)
  }

  /** The probe loop as the organiser runs it, with its "renamed" flag. */
  method ResolveDestination(name: string, existing: set<string>) returns (dest: string, renamed: bool)
    ensures dest == Resolve(name, existing)
    ensures renamed <==> name in existing
  {
    dest := name;
    renamed := false;
    if name in existing {
      var n := 1;
      dest := Candidate(name, n);
      while dest in existing
        invariant 1 <= n
        invariant dest == Candidate(name, n)
        invariant TakenBelow(name, existing, n)
        decreases Pow10(MaxLen(existing)) - n
      {
        if n >= Pow10(MaxLen(existing)) {
          LongCandidateFresh(name, existing, n);
        }
        n := n + 1;
        dest := Candidate(name, n);
      }
      ProbeLeast(name, existing, n);
      renamed := true;
    }
  }
}
