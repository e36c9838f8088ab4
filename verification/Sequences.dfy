/** Places of a sequence, for saying which elements something keeps. */
module Sequences {
  /** Every place moved one further. */
  function Later(at: seq<nat>): (later: seq<nat>)
    ensures |later| == |at|
  {
    seq(|at|, k requires 0 <= k < |at| => at[k] + 1)
  }

  /** Places of a sequence of that length, each once and in order. */
  predicate Ordered(at: seq<nat>, length: nat) {
    (forall j, k :: 0 <= j < k < |at| ==> at[j] < at[k]) && (forall k :: 0 <= k < |at| ==> at[k] < length)
  }

  /** With one element more in front, which is kept or not. */
  function Kept(at: seq<nat>, first: bool): seq<nat> {
    if first then [0] + Later(at) else Later(at)
  }

  lemma KeptOrdered(at: seq<nat>, length: nat, first: bool)
    requires Ordered(at, length)
    ensures Ordered(Kept(at, first), length + 1)
  {
  }

  lemma KeptIn(at: seq<nat>, first: bool, i: nat)
    ensures i in Kept(at, first) <==> if i == 0 then first else i - 1 in at
  {
    var later := Later(at);
    if i > 0 && i - 1 in at {
      var k :| 0 <= k < |at| && at[k] == i - 1;
      assert later[k] == i && i in later;
    }
    if i in later {
      var k :| 0 <= k < |later| && later[k] == i;
      assert at[k] == i - 1;
    }
    assert first ==> (i in [0] + later <==> i == 0 || i in later);
  }

  /** The elements at those places. */
  lemma KeptElements<T>(s: seq<T>, at: seq<nat>, first: bool, kept: seq<T>)
    requires s != [] && Ordered(at, |s| - 1) && |kept| == |at|
    requires forall k :: 0 <= k < |at| ==> kept[k] == s[1..][at[k]]
    ensures var more, all := Kept(at, first), if first then [s[0]] + kept else kept;
      |more| == |all| && forall k :: 0 <= k < |more| ==> more[k] < |s| && all[k] == s[more[k]]
  {
    var more, all := Kept(at, first), if first then [s[0]] + kept else kept;
    forall k | 0 <= k < |more|
      ensures more[k] < |s| && all[k] == s[more[k]]
    {
      if first && k == 0 {
        assert more[0] == 0;
      } else {
        var j := if first then k - 1 else k;
        assert more[k] == at[j] + 1 && all[k] == kept[j];
        assert s[1..][at[j]] == s[at[j] + 1];
      }
    }
  }
}
