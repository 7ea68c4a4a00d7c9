/** Sequences under a map. */
module Mapping {
  function MapAll(f: map<nat, nat>, s: seq<nat>): seq<nat>
    requires forall x | x in s :: x in f
  {
    seq(|s|, i requires 0 <= i < |s| => f[s[i]])
  }
}
