/**
 * The bounded polling loop that `PlaPicture.GetInputActions`,
 * `PlaController.GetManagerStuff` and `PlaController.GetInputActions` share:
 * read once, then re-read once per frame while the answer is missing and
 * fewer than `maxTries` retries were made.
 */
module Retry {
  import opened Common

  /**
   * The first poll, among the initial one and `maxTries` retries, that
   * found what it looked for. `polls[k]` is the answer of poll `k`.
   */
  function FirstWithin(polls: seq<bool>, maxTries: nat): (r: Option<nat>)
    requires |polls| > maxTries
    ensures r.Some? ==> r.value <= maxTries && polls[r.value]
    ensures r.Some? ==> forall j :: 0 <= j < r.value ==> !polls[j]
    ensures r.None? ==> forall j :: 0 <= j <= maxTries ==> !polls[j]
  {
    FirstFrom(polls, maxTries, 0)
  }

  function FirstFrom(polls: seq<bool>, maxTries: nat, k: nat): (r: Option<nat>)
    requires |polls| > maxTries && k <= maxTries + 1
    ensures r.Some? ==> k <= r.value <= maxTries && polls[r.value]
    ensures r.Some? ==> forall j :: k <= j < r.value ==> !polls[j]
    ensures r.None? ==> forall j :: k <= j <= maxTries ==> !polls[j]
    decreases maxTries + 1 - k
  {
    if k > maxTries then None
    else if polls[k] then Some(k)
    else FirstFrom(polls, maxTries, k + 1)
  }

  /**
   * The loop itself. `tries` counts the retries (each followed by a
   * `yield return null`); `found` is the answer of the last poll.
   */
  method Poll(polls: seq<bool>, maxTries: nat) returns (found: bool, tries: nat)
    requires |polls| > maxTries
    ensures found <==> FirstWithin(polls, maxTries).Some?
    ensures found ==> tries == FirstWithin(polls, maxTries).value
    ensures !found ==> tries == maxTries
  {
    tries := 0;
    found := polls[0];
    while !found && tries < maxTries
      invariant tries <= maxTries
      invariant found == polls[tries]
      invariant forall j :: 0 <= j < tries ==> !polls[j]
    {
      found := polls[tries + 1];
      tries := tries + 1;
    }
    if found {
      assert FirstWithin(polls, maxTries).Some?;
    }
  }
}
