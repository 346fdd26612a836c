/**
 * An ordered chain of early-return checks: each check either holds or
 * names the reply it causes, and the first check that does not hold
 * decides the reply. The handlers' guard sequences are proved equal to
 * chains of this kind.
 */
module Guards {
  import opened Wrappers

  datatype Guard<E> = Guard(holds: bool, failure: E)

  /** The failure of the first check that does not hold, if any. */
  function FirstFailure<E>(gs: seq<Guard<E>>): Option<E>
    decreases |gs|
  {
    if |gs| == 0 then None
    else if !gs[0].holds then Some(gs[0].failure)
    else FirstFailure(gs[1..])
  }

  /** When check `i` fails and every earlier one holds, check `i` decides. */
  lemma {:induction false} FirstFailureAt<E>(gs: seq<Guard<E>>, i: nat)
    requires i < |gs| && !gs[i].holds
    requires forall j :: 0 <= j < i ==> gs[j].holds
    ensures FirstFailure(gs) == Some(gs[i].failure)
    decreases i
  {
    if i > 0 {
      assert gs[0].holds;
      assert forall j :: 0 <= j < i - 1 ==> gs[1..][j] == gs[j + 1];
      FirstFailureAt(gs[1..], i - 1);
    }
  }

  /** No failure is reported exactly when every check holds. */
  lemma {:induction false} NoFailure<E>(gs: seq<Guard<E>>)
    ensures FirstFailure(gs).None? <==> forall i :: 0 <= i < |gs| ==> gs[i].holds
    decreases |gs|
  {
    if |gs| > 0 {
      assert forall j :: 0 <= j < |gs| - 1 ==> gs[1..][j] == gs[j + 1];
      NoFailure(gs[1..]);
      if gs[0].holds && FirstFailure(gs[1..]).None? {
        forall i | 0 <= i < |gs| ensures gs[i].holds {
          if i > 0 { assert gs[i] == gs[1..][i - 1]; }
        }
      }
    }
  }
}
