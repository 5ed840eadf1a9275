/**
 * Finalizer lists and the two tokens the controller owns. A finalizer list is
 * the object's `[]string`; the controller only ever treats it as a set.
 */
module Finalizers {

  /** The token the controller keeps on every SecretBinding it manages. */
  const GardenerName: string := "gardener"

  /** The token the controller keeps on every Secret a SecretBinding references. */
  const ExternalGardenerName: string := "gardener.cloud/gardener"

  predicate NoDuplicates(fs: seq<string>) {
    forall i, j :: 0 <= i < j < |fs| ==> fs[i] != fs[j]
  }

  /**
   * The list left after putting the finalizers in a set, deleting `token` from
   * it and listing the set again. The listing order of the set is unspecified;
   * this model keeps the last occurrence of each token in input order, and
   * its contract, which is all the source determines, speaks only of
   * membership and the absence of duplicates.
   */
  function RemoveFinalizer(fs: seq<string>, token: string): (r: seq<string>)
    ensures forall f :: f in r <==> f in fs && f != token
    ensures NoDuplicates(r)
    ensures |r| <= |fs|
  {
    if fs == [] then []
    else
      var rest := RemoveFinalizer(fs[1..], token);
      if fs[0] == token || fs[0] in rest then rest else [fs[0]] + rest
  }

  /**
   * The effect of ensuring a finalizer: the token is added unless it is
   * already there, in which case the list is left as it is.
   */
  function AddFinalizer(fs: seq<string>, token: string): (r: seq<string>)
    ensures forall f :: f in r <==> f in fs || f == token
    ensures token in fs ==> r == fs
    ensures token !in fs ==> |r| == |fs| + 1
  {
    if token in fs then fs else fs + [token]
  }
}
