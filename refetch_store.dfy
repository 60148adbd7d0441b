/** `stores/refetch.ts`: the `refetch` store, a flag whose every change tells listening pages to
    reload their data. */
module RefetchStore {

  const InitialNeedRefetch := false

  /** `triggerRefetch`: flip the flag. */
  function TriggerStep(needRefetch: bool): (r: bool)
    ensures r != needRefetch
  {
    !needRefetch
  }

  /** The flag after `n` triggers starting from `needRefetch`. */
  function Triggered(needRefetch: bool, n: nat): bool {
    if n == 0 then needRefetch else TriggerStep(Triggered(needRefetch, n - 1))
  }

  /** Two consecutive triggers restore the flag. */
  lemma TriggerTwice(needRefetch: bool)
    ensures TriggerStep(TriggerStep(needRefetch)) == needRefetch
  {
  }

  /** After `n` triggers from the initial state, a refetch is pending exactly when `n` is odd. */
  lemma {:induction false} TriggeredParity(n: nat)
    ensures Triggered(InitialNeedRefetch, n) <==> n % 2 == 1
  {
    if n > 0 {
      TriggeredParity(n - 1);
    }
  }

  /** The Pinia store object. */
  class Refetch {
    var needRefetch: bool

    constructor ()
      ensures needRefetch == InitialNeedRefetch
    {
      needRefetch := false;
    }

    method TriggerRefetch()
      modifies this
      ensures needRefetch == TriggerStep(old(needRefetch))
    {
      needRefetch := !needRefetch;
    }
  }
}
