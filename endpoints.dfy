/**
 * The endpoint rotator: a fixed list of four interchangeable API base URLs
 * and the process-wide index of the one currently in use, advanced by one
 * (wrapping around) whenever a request against it fails.
 */
module Endpoints {

  const BaseUrls: seq<string> := [
    "https://api.asmr.one",
    "https://api.asmr-100.com",
    "https://api.asmr-200.com",
    "https://api.asmr-300.com"
  ]

  /** The index that follows `i` in the rotation. */
  function Next(i: nat): (j: nat)
    requires i < |BaseUrls|
    ensures j < |BaseUrls|
    ensures j == if i == |BaseUrls| - 1 then 0 else i + 1
  {
    (i + 1) % |BaseUrls|
  }

  /** The index reached from `i` after `k` rotations. */
  function RotatedBy(i: nat, k: nat): (j: nat)
    requires i < |BaseUrls|
    ensures j < |BaseUrls|
  {
    if k == 0 then i else Next(RotatedBy(i, k - 1))
  }

  /** `k` rotations advance the index by exactly `k` modulo the number of endpoints. */
  lemma {:induction false} RotatedByIsModular(i: nat, k: nat)
    requires i < |BaseUrls|
    ensures RotatedBy(i, k) == (i + k) % |BaseUrls|
  {
    if k > 0 {
      RotatedByIsModular(i, k - 1);
    }
  }

  /** A full round of rotations comes back to the endpoint it started from. */
  lemma RotationCycle(i: nat, k: nat)
    requires i < |BaseUrls|
    ensures RotatedBy(i, k + |BaseUrls|) == RotatedBy(i, k)
  {
    RotatedByIsModular(i, k + |BaseUrls|);
    RotatedByIsModular(i, k);
  }

  /** The shared rotation state: the index into `BaseUrls` of the endpoint in use. */
  class ApiRotator {
    var index: nat

    ghost predicate Valid()
      reads this
    {
      index < |BaseUrls|
    }

    /** The index starts at the first endpoint. */
    constructor ()
      ensures Valid() && index == 0
    {
      index := 0;
    }

    /** Switches to the next endpoint, wrapping from the last back to the first. */
    method Rotate()
      requires Valid()
      modifies this
      ensures Valid()
      ensures index == Next(old(index))
    {
      index := (index + 1) % |BaseUrls|;
    }

    /** The base URL requests currently go to: always one of the four endpoints. */
    function Current(): (url: string)
      requires Valid()
      reads this
      ensures url in BaseUrls
      ensures url == BaseUrls[index]
    {
      BaseUrls[index]
    }
  }
}
