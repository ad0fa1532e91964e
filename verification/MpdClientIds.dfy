/**
 Client identifiers: the wrap-around search at lines 141 to 147 of
 src/Protocols/MPD.cpp. The counter is a 32-bit word; identifiers run from 1 to
 2^32 - 2, because `Client_None` is 0 and `Client_All` is 2^32 - 1.
 */
module MpdClientIds {
  import opened MpdState

  const IDS: nat := CLIENT_ALL - 1

  /** One round of the search: the 32-bit sum `counter + 1` is compared with `Client_All`. */
  function NextCounter(counter: nat): nat {
    (if (counter + 1) % 0x1_0000_0000 >= CLIENT_ALL then 0 else counter) + 1
  }

  /** The identifier tried in round `k`, the rounds counted from 0. */
  function Candidate(counter: nat, k: nat): (id: nat)
    ensures 1 <= id <= IDS
  {
    (counter % IDS + k) % IDS + 1
  }

  lemma FirstCandidate(counter: nat)
    requires counter <= IDS
    ensures NextCounter(counter) == Candidate(counter, 0)
  {
  }

  lemma NextCandidate(counter: nat, k: nat)
    ensures NextCounter(Candidate(counter, k)) == Candidate(counter, k + 1)
  {
    var x := counter % IDS + k;
    assert (x + 1) % IDS == if x % IDS == IDS - 1 then 0 else x % IDS + 1;
  }

  /** No identifier is tried twice within one turn of the circle. */
  lemma CandidatesDiffer(counter: nat, j: nat, k: nat)
    requires j < k < IDS
    ensures Candidate(counter, j) != Candidate(counter, k)
  {
    var b := counter % IDS;
    var x, y := b + j, b + k;
    assert x % IDS == if x < IDS then x else x - IDS;
    assert y % IDS == if y < IDS then y else y - IDS;
  }

  ghost function Tried(counter: nat, k: nat): set<nat> {
    if k == 0 then {} else Tried(counter, k - 1) + {Candidate(counter, k - 1)}
  }

  lemma {:induction false} TriedAre(counter: nat, k: nat)
    ensures forall id :: id in Tried(counter, k) <==> exists j: nat :: j < k && Candidate(counter, j) == id
  {
    if k > 0 {
      TriedAre(counter, k - 1);
      forall id ensures id in Tried(counter, k) <==> exists j: nat :: j < k && Candidate(counter, j) == id {
        if id in Tried(counter, k - 1) {
          var j: nat :| j < k - 1 && Candidate(counter, j) == id;
        }
      }
    }
  }

  lemma {:induction false} TriedCount(counter: nat, k: nat)
    requires k <= IDS
    ensures |Tried(counter, k)| == k
  {
    if k > 0 {
      TriedCount(counter, k - 1);
      TriedAre(counter, k - 1);
      forall j: nat | j < k - 1 ensures Candidate(counter, j) != Candidate(counter, k - 1) {
        CandidatesDiffer(counter, j, k - 1);
      }
    }
  }

  /** Pigeonhole: as long as every identifier tried was live, no more have been tried than are live. */
  lemma TriedAllLive(counter: nat, k: nat, live: set<nat>)
    requires k <= IDS && forall j: nat :: j < k ==> Candidate(counter, j) in live
    ensures k <= |live|
  {
    TriedCount(counter, k);
    TriedAre(counter, k);
    SubsetSize(Tried(counter, k), live);
  }

  lemma {:induction false} SubsetSize(a: set<nat>, b: set<nat>)
    requires a <= b
    ensures |a| <= |b|
  {
    if a != {} {
      var x :| x in a;
      SubsetSize(a - {x}, b - {x});
    }
  }

  /** The search ends exactly when some identifier is free. */
  lemma SearchEndsExactlyWhen(counter: nat, live: set<nat>)
    ensures (exists k: nat :: Candidate(counter, k) !in live) <==> (exists id :: 1 <= id <= IDS && id !in live)
  {
    if id :| 1 <= id <= IDS && id !in live {
      var b := counter % IDS;
      var k := if id - 1 >= b then id - 1 - b else id - 1 - b + IDS;
      assert b + k == id - 1 || b + k == id - 1 + IDS;
      assert (b + k) % IDS == id - 1;
      assert Candidate(counter, k) == id;
    }
  }

  /** `id` is the first identifier after `counter`, going round the circle, that is not live. */
  predicate FirstFree(counter: nat, live: set<nat>, id: nat, k: nat) {
    id == Candidate(counter, k) && id !in live && forall j: nat :: j < k ==> Candidate(counter, j) in live
  }
}
