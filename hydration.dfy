/**
 * `hydrateResolutionForm`: the starting values of the resolution form, one
 * per variable of the prompt, taken from a saved snapshot where it has the
 * variable and empty otherwise.
 */
module Hydration {
  import opened Wrappers

  /** `snapshotVariables?.[variable] ?? ''`. */
  function SnapshotValue(snapshot: Option<map<string, string>>, variable: string): string
  {
    if snapshot.Some? && variable in snapshot.value then snapshot.value[variable] else ""
  }

  /**
   * The form values: exactly the extracted variables are keys, each holding
   * its snapshot value or `''`; snapshot entries for other names are dropped.
   */
  method Hydrate(extracted: seq<string>, snapshot: Option<map<string, string>>) returns (result: map<string, string>)
    ensures result.Keys == set v | v in extracted
    ensures forall v :: v in result ==> result[v] == SnapshotValue(snapshot, v)
    ensures forall v :: v in extracted && snapshot.Some? && v in snapshot.value ==> result[v] == snapshot.value[v]
    ensures snapshot.None? ==> forall v :: v in result ==> result[v] == ""
  {
    result := map[];
    for i := 0 to |extracted|
      invariant result.Keys == set v | v in extracted[..i]
      invariant forall v :: v in result ==> result[v] == SnapshotValue(snapshot, v)
    {
      assert extracted[..i + 1] == extracted[..i] + [extracted[i]];
      result := result[extracted[i] := SnapshotValue(snapshot, extracted[i])];
    }
    assert extracted[..|extracted|] == extracted;
  }
}
