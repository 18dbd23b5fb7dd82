/** Domain injuries applied once at the start: a voltage offset and/or an energy reset over a domain's slice. */
module Injuries {
  import opened Wrappers
  import opened Grids

  /** One injury entry: the domain id, an optional voltage offset (mV) and an optional energy value. */
  datatype Injury = Injury(id: Option<int>, deltaVMV: Option<real>, e0: Option<real>)

  /** A domain's rectangle: rows r0 up to r1 and columns c0 up to c1, ends excluded, clipped to the grid. */
  datatype DomainSlice = DomainSlice(r0: nat, r1: nat, c0: nat, c1: nat)

  predicate InSlice(sl: DomainSlice, i: nat, j: nat)
  {
    sl.r0 <= i < sl.r1 && sl.c0 <= j < sl.c1
  }

  /** The entry's domain index, -1 when it has none. */
  function DomainId(inj: Injury): int
  {
    if inj.id.Some? then inj.id.value else -1
  }

  /** An entry takes effect only when present and naming one of the n domains. */
  predicate Applies(entry: Option<Injury>, n: nat)
  {
    entry.Some? && 0 <= DomainId(entry.value) < n
  }

  /** The entry takes effect and its domain's slice holds cell (i, j). */
  predicate Covers(slices: seq<DomainSlice>, entry: Option<Injury>, i: nat, j: nat)
  {
    Applies(entry, |slices|) && InSlice(slices[DomainId(entry.value)], i, j)
  }

  /** The entry offsets the voltage of cell (i, j). */
  predicate ShiftsV(slices: seq<DomainSlice>, entry: Option<Injury>, i: nat, j: nat)
  {
    Covers(slices, entry, i, j) && entry.value.deltaVMV.Some?
  }

  /** The entry resets the energy of cell (i, j). */
  predicate SetsE(slices: seq<DomainSlice>, entry: Option<Injury>, i: nat, j: nat)
  {
    Covers(slices, entry, i, j) && entry.value.e0.Some?
  }

  /** Total voltage offset the entries give cell (i, j). */
  function DeltaAt(slices: seq<DomainSlice>, entries: seq<Option<Injury>>, i: nat, j: nat): real
  {
    if entries == [] then 0.0
    else
      var last := entries[|entries| - 1];
      DeltaAt(slices, entries[..|entries| - 1], i, j)
      + (if ShiftsV(slices, last, i, j) then last.value.deltaVMV.value else 0.0)
  }

  /** Energy of cell (i, j) after the entries, starting from e: the last resetting entry's value, else e. */
  function EnergyAt(slices: seq<DomainSlice>, entries: seq<Option<Injury>>, i: nat, j: nat, e: real): real
  {
    if entries == [] then e
    else
      var last := entries[|entries| - 1];
      if SetsE(slices, last, i, j) then last.value.e0.value
      else EnergyAt(slices, entries[..|entries| - 1], i, j, e)
  }

  /** A cell outside the slices of every applying entry keeps its voltage and its energy. */
  lemma {:induction false} UncoveredCellUnchanged(slices: seq<DomainSlice>, entries: seq<Option<Injury>>, i: nat, j: nat, e: real)
    requires forall k :: 0 <= k < |entries| ==> !Covers(slices, entries[k], i, j)
    ensures DeltaAt(slices, entries, i, j) == 0.0
    ensures EnergyAt(slices, entries, i, j, e) == e
  {
    if entries != [] {
      UncoveredCellUnchanged(slices, entries[..|entries| - 1], i, j, e);
    }
  }

  /** Offsets add up: the offset of a concatenation of entry lists is the sum of their offsets. */
  lemma {:induction false} DeltasAddUp(slices: seq<DomainSlice>, a: seq<Option<Injury>>, b: seq<Option<Injury>>, i: nat, j: nat)
    ensures DeltaAt(slices, a + b, i, j) == DeltaAt(slices, a, i, j) + DeltaAt(slices, b, i, j)
  {
    if b == [] {
      assert a + b == a;
    } else {
      var n := |b| - 1;
      assert (a + b)[..|a + b| - 1] == a + b[..n];
      DeltasAddUp(slices, a, b[..n], i, j);
    }
  }

  /** The last energy reset wins: once a later list resets the cell, the earlier entries no longer matter. */
  lemma {:induction false} LastResetWins(slices: seq<DomainSlice>, a: seq<Option<Injury>>, b: seq<Option<Injury>>, i: nat, j: nat, e: real)
    requires exists k :: 0 <= k < |b| && SetsE(slices, b[k], i, j)
    ensures EnergyAt(slices, a + b, i, j, e) == EnergyAt(slices, b, i, j, e)
  {
    var n := |b| - 1;
    assert (a + b)[..|a + b| - 1] == a + b[..n];
    assert (a + b)[|a + b| - 1] == b[n];
    if !SetsE(slices, b[n], i, j) {
      var k :| 0 <= k < |b| && SetsE(slices, b[k], i, j);
      assert b[..n][k] == b[k];
      LastResetWins(slices, a, b[..n], i, j, e);
    }
  }

  /**
   * `apply_domain_injuries`: with no entries, the arrays themselves; otherwise
   * fresh copies in which each applying entry adds its offset to the voltage
   * and writes its energy over its domain's slice, in order. The input
   * arrays are never written.
   */
  method ApplyDomainInjuries(V: array2<real>, E: array2<real>, slices: seq<DomainSlice>, entries: seq<Option<Injury>>)
    returns (vNew: array2<real>, eNew: array2<real>)
    ensures entries == [] ==> vNew == V && eNew == E
    ensures entries != [] ==> fresh(vNew) && fresh(eNew)
    ensures vNew.Length0 == V.Length0 && vNew.Length1 == V.Length1
    ensures eNew.Length0 == E.Length0 && eNew.Length1 == E.Length1
    ensures forall i, j :: 0 <= i < V.Length0 && 0 <= j < V.Length1 ==>
      vNew[i, j] == V[i, j] + DeltaAt(slices, entries, i, j)
    ensures forall i, j :: 0 <= i < E.Length0 && 0 <= j < E.Length1 ==>
      eNew[i, j] == EnergyAt(slices, entries, i, j, E[i, j])
  {
    if entries == [] {
      return V, E;
    }
    vNew := FromGrid(Cells(V), V.Length0, V.Length1);
    eNew := FromGrid(Cells(E), E.Length0, E.Length1);
    var n := |slices|;
    for k := 0 to |entries|
      invariant fresh(vNew) && fresh(eNew) && vNew != eNew
      invariant vNew.Length0 == V.Length0 && vNew.Length1 == V.Length1
      invariant eNew.Length0 == E.Length0 && eNew.Length1 == E.Length1
      invariant forall i, j :: 0 <= i < V.Length0 && 0 <= j < V.Length1 ==>
        vNew[i, j] == V[i, j] + DeltaAt(slices, entries[..k], i, j)
      invariant forall i, j :: 0 <= i < E.Length0 && 0 <= j < E.Length1 ==>
        eNew[i, j] == EnergyAt(slices, entries[..k], i, j, E[i, j])
    {
      assert entries[..k + 1][..k] == entries[..k];
      var entry := entries[k];
      if entry.Some? {
        var id := DomainId(entry.value);
        if 0 <= id < n {
          var sl := slices[id];
          if entry.value.deltaVMV.Some? {
            var dv := entry.value.deltaVMV.value;
            forall i, j | 0 <= i < vNew.Length0 && 0 <= j < vNew.Length1 && InSlice(sl, i, j) {
              vNew[i, j] := vNew[i, j] + dv;
            }
          }
          if entry.value.e0.Some? {
            var e0 := entry.value.e0.value;
            forall i, j | 0 <= i < eNew.Length0 && 0 <= j < eNew.Length1 && InSlice(sl, i, j) {
              eNew[i, j] := e0;
            }
          }
        }
      }
    }
    assert entries[..|entries|] == entries;
  }
}
