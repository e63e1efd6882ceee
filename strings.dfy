/**
 * Strings laid end to end: `join('')` over an array of strings, and the
 * regrouping facts the renderers' proofs rely on.
 */
module Strings {

  /** The strings laid end to end with no separator, as `join('')` does. */
  function Join(es: seq<string>): string {
    if es == [] then "" else es[0] + Join(es[1..])
  }

  /** A single string joins to itself. */
  lemma JoinSingle(e: string)
    ensures Join([e]) == e
  {
    assert [e][1..] == [];
  }

  /** Concatenation regrouped. */
  lemma Regroup(x: string, y: string, z: string)
    ensures x + (y + z) == (x + y) + z
  {
  }

  /** Joining two runs of strings is joining each and concatenating. */
  lemma {:induction false} JoinAppend(x: seq<string>, y: seq<string>)
    ensures Join(x + y) == Join(x) + Join(y)
    decreases x
  {
    if x == [] {
      assert x + y == y;
    } else {
      assert (x + y)[0] == x[0];
      assert (x + y)[1..] == x[1..] + y;
      JoinAppend(x[1..], y);
      Regroup(x[0], Join(x[1..]), Join(y));
    }
  }

  /** String `k` of a run sits between the join of those before it and of those after it. */
  lemma JoinAt(es: seq<string>, k: nat)
    requires k < |es|
    ensures Join(es) == Join(es[..k]) + es[k] + Join(es[k + 1..])
  {
    assert es[..k] + es[k..] == es;
    JoinAppend(es[..k], es[k..]);
    assert es[k..][1..] == es[k + 1..];
    Regroup(Join(es[..k]), es[k], Join(es[k + 1..]));
  }
}
