/**
 * The list logic of the simulation's data holder: cutting the loaded time
 * series down to the simulated window, handing the loaded profiles out to
 * the agents that the classification array says own a load, a PV panel or
 * a storage unit, flooring the utility price profile at zero, and recording
 * an agent's traded volume for the current step.
 */
module Profiles {
  import opened AuctionTypes
  import opened SeqUtil

  function Max(a: int, b: int): int { if a < b then b else a }
  function Min(a: int, b: int): int { if a < b then a else b }

  // ---------------------------------------------------------------------------
  // Python slices
  // ---------------------------------------------------------------------------

  /** A slice bound as Python resolves it against a list of length `n`. */
  function SliceBound(i: int, n: nat): (r: nat)
    ensures r <= n
    ensures 0 <= i <= n ==> r == i
    ensures i > n ==> r == n
  {
    if i < 0 then Max(i + n, 0) else Min(i, n)
  }

  /** `s[start:stop]`, with Python's clamping of bounds outside the list. */
  function PySlice<T>(s: seq<T>, start: int, stop: int): (r: seq<T>)
    ensures |r| <= |s|
    ensures 0 <= start <= stop <= |s| ==> r == s[start..stop]
    ensures 0 <= start && 0 <= stop ==> |r| == Max(0, Min(stop, |s|) - start)
    ensures 0 <= start ==> forall k :: 0 <= k < |r| ==> start + k < |s| && r[k] == s[start + k]
  {
    var lo, hi := SliceBound(start, |s|), SliceBound(stop, |s|);
    if lo < hi then s[lo..hi] else []
  }

  // ---------------------------------------------------------------------------
  // slice_from_to
  // ---------------------------------------------------------------------------

  /** One entry of a loaded time-series list: a number, or a whole profile (a nested list). */
  datatype Cell = Value(v: real) | Profile(values: seq<real>)

  /**
   * What the CSV helpers hand to `slice_from_to`: a Python list (which the
   * function may rewrite in place), or an indexable value of another type
   * with `size` entries.
   */
  datatype TimeSeries = PyList(cells: array<Cell>) | NotAList(size: nat)

  /** A profile cut to `[start:stop]`; a number is left as it is. */
  function Trim(c: Cell, start: int, stop: int): Cell
  {
    match c
    case Profile(values) => Profile(PySlice(values, start, stop))
    case Value(_) => c
  }

  /** The number of profiles at the front of `cells`, before the first plain number. */
  function LeadingProfiles(cells: seq<Cell>): (n: nat)
    ensures n <= |cells|
    ensures forall j :: 0 <= j < n ==> cells[j].Profile?
    ensures n < |cells| ==> cells[n].Value?
  {
    if cells == [] || cells[0].Value? then 0 else 1 + LeadingProfiles(cells[1..])
  }

  /**
   * The result of `slice_from_to` on a list: an empty list fails at `file[0]`;
   * a list whose first entry is a profile has every profile cut (a plain
   * number among them cannot be sliced); a flat list is cut as one series.
   */
  function SliceList(cells: seq<Cell>, start: int, stop: int): (r: Result<seq<Cell>>)
    ensures r.Failure? <==> cells == [] || (cells[0].Profile? && LeadingProfiles(cells) < |cells|)
    ensures r.Failure? ==> r.error == (if cells == [] then IndexError else TypeError)
    ensures r.Success? && cells[0].Value? ==> r.value == PySlice(cells, start, stop)
  {
    if cells == [] then Failure(IndexError)
    else if cells[0].Value? then Success(PySlice(cells, start, stop))
    else if LeadingProfiles(cells) < |cells| then Failure(TypeError)
    else Success(TrimFront(cells, |cells|, start, stop))
  }

  /** `cells` with its first `n` entries cut to `[start:stop]`. */
  function TrimFront(cells: seq<Cell>, n: nat, start: int, stop: int): (r: seq<Cell>)
    requires n <= |cells|
    ensures |r| == |cells|
    ensures forall j :: 0 <= j < |r| ==> r[j] == if j < n then Trim(cells[j], start, stop) else cells[j]
  {
    seq(|cells|, j requires 0 <= j < |cells| => if j < n then Trim(cells[j], start, stop) else cells[j])
  }

  /**
   * The list left behind by `slice_from_to` in the caller's hands: in the
   * nested case each profile up to the first plain number has been cut in
   * place, the rest untouched; a flat list is not changed.
   */
  function Rewritten(cells: seq<Cell>, start: int, stop: int): (r: seq<Cell>)
    ensures |r| == |cells|
  {
    if cells != [] && cells[0].Profile? then TrimFront(cells, LeadingProfiles(cells), start, stop)
    else cells
  }

  /** Cutting one more entry extends the cut front by one. */
  lemma TrimFrontStep(cells: seq<Cell>, n: nat, start: int, stop: int)
    requires n < |cells|
    ensures TrimFront(cells, n, start, stop)[n := Trim(cells[n], start, stop)] == TrimFront(cells, n + 1, start, stop)
  {
    var u := TrimFront(cells, n, start, stop)[n := Trim(cells[n], start, stop)];
    var v := TrimFront(cells, n + 1, start, stop);
    assert forall j :: 0 <= j < |u| ==> u[j] == v[j];
  }

  /**
   * A list of profiles keeps its number of profiles, and profile `i` becomes
   * the window of `w` steps from `start` of the original one, or what of it
   * the profile holds.
   */
  lemma NestedWindows(cells: seq<Cell>, start: nat, w: nat)
    requires SliceList(cells, start, start + w).Success? && cells[0].Profile?
    ensures var out := SliceList(cells, start, start + w).value;
      && |out| == |cells|
      && forall i :: 0 <= i < |out| ==>
           && out[i].Profile? && cells[i].Profile?
           && |out[i].values| == Max(0, Min(start + w, |cells[i].values|) - start)
           && forall k :: 0 <= k < |out[i].values| ==> out[i].values[k] == cells[i].values[start + k]
  {
  }

  /** A flat series becomes its window of `w` steps from `start`. */
  lemma FlatWindow(cells: seq<Cell>, start: nat, w: nat)
    requires cells != [] && cells[0].Value?
    ensures var r := SliceList(cells, start, start + w);
      && r.Success?
      && |r.value| == Max(0, Min(start + w, |cells|) - start)
      && forall k :: 0 <= k < |r.value| ==> r.value[k] == cells[start + k]
  {
  }

  /** A nested list that slicing succeeds on is rewritten in place to the returned list. */
  lemma RewrittenIsResult(cells: seq<Cell>, start: int, stop: int)
    requires SliceList(cells, start, stop).Success? && cells[0].Profile?
    ensures Rewritten(cells, start, stop) == SliceList(cells, start, stop).value
  {
  }

  /**
   * The nested branch of `slice_from_to`: each profile of `a` is replaced by
   * its window, in place, until a plain number stops the loop.
   */
  method TrimProfiles(a: array<Cell>, start: int, stop: int) returns (r: Result<seq<Cell>>)
    requires a.Length > 0 && a[0].Profile?
    modifies a
    ensures r == SliceList(old(a[..]), start, stop)
    ensures a[..] == Rewritten(old(a[..]), start, stop)
  {
    ghost var original := a[..];
    var i := 0;
    while i < a.Length
      invariant 0 <= i <= a.Length == |original|
      invariant i <= LeadingProfiles(original)
      invariant a[..] == TrimFront(original, i, start, stop)
    {
      if a[i].Value? {
        assert original[i] == a[..][i];
        return Failure(TypeError);
      }
      TrimFrontStep(original, i, start, stop);
      a[i] := Trim(a[i], start, stop);
      i := i + 1;
    }
    r := Success(a[..]);
  }

  // ---------------------------------------------------------------------------
  // fill_in_classification_array
  // ---------------------------------------------------------------------------

  /** A classification entry: `True`/`False`, or a number (for PV, a multiplier). */
  datatype Flag = Bool(b: bool) | Number(n: real)

  /** Python truthiness of a flag. */
  predicate Truthy(f: Flag)
  {
    match f
    case Bool(b) => b
    case Number(n) => n != 0.0
  }

  /** One agent's row of the classification array: does it own a load, PV, storage? */
  datatype ClassRow = ClassRow(load: Flag, pv: Flag, ess: Flag)

  /** One agent's row of the agent data array: its profiles, or `None`. */
  datatype AgentRow = AgentRow(load: Option<seq<real>>, pv: Option<seq<real>>, ess: Option<seq<real>>)

  datatype Resource = Load | Pv | Ess

  function FlagOf(row: ClassRow, c: Resource): Flag
  {
    match c
    case Load => row.load
    case Pv => row.pv
    case Ess => row.ess
  }

  function EntryOf(row: AgentRow, c: Resource): Option<seq<real>>
  {
    match c
    case Load => row.load
    case Pv => row.pv
    case Ess => row.ess
  }

  /** The number of rows with a truthy flag for `c`. */
  function Holders(rows: seq<ClassRow>, c: Resource): nat
  {
    if rows == [] then 0
    else Holders(rows[..|rows| - 1], c) + (if Truthy(FlagOf(rows[|rows| - 1], c)) then 1 else 0)
  }

  lemma {:induction false} HoldersMonotone(rows: seq<ClassRow>, i: nat, c: Resource)
    requires i <= |rows|
    ensures Holders(rows[..i], c) <= Holders(rows, c)
    decreases |rows|
  {
    if i < |rows| {
      var rows' := rows[..|rows| - 1];
      assert rows'[..i] == rows[..i];
      HoldersMonotone(rows', i, c);
    } else {
      assert rows[..i] == rows;
    }
  }

  /** `[i * multiplier for i in series]` when the flag is a number; the series itself for a boolean. */
  function Scaled(series: seq<real>, f: Flag): (r: seq<real>)
    ensures |r| == |series|
    ensures f.Bool? ==> r == series
    ensures f.Number? ==> forall k :: 0 <= k < |r| ==> r[k] == series[k] * f.n
  {
    match f
    case Bool(_) => series
    case Number(m) => seq(|series|, k requires 0 <= k < |series| => series[k] * m)
  }

  /**
   * Agent `j`'s entry for `c`: with a truthy flag, the profile of `source`
   * numbered by how many earlier agents hold a truthy flag for `c` (for PV,
   * multiplied by a numeric flag); with a falsy flag, `None`.
   */
  predicate Assigned(rows: seq<ClassRow>, j: nat, c: Resource, source: seq<seq<real>>, entry: Option<seq<real>>)
    requires j < |rows|
  {
    var f := FlagOf(rows[j], c);
    var k := Holders(rows[..j], c);
    if Truthy(f) then
      k < |source| && entry == Some(if c == Pv then Scaled(source[k], f) else source[k])
    else entry == None
  }

  /** Every agent's row holds the profiles its classification asks for, in hand-out order. */
  predicate Distributed(rows: seq<ClassRow>, out: seq<AgentRow>,
                        loads: seq<seq<real>>, pvs: seq<seq<real>>, esss: seq<seq<real>>)
  {
    && |out| == |rows|
    && forall j :: 0 <= j < |rows| ==>
         && Assigned(rows, j, Load, loads, out[j].load)
         && Assigned(rows, j, Pv, pvs, out[j].pv)
         && Assigned(rows, j, Ess, esss, out[j].ess)
  }

  /** The profiles present in `out` for `c`, in agent order. */
  function HandedOut(out: seq<AgentRow>, c: Resource): seq<seq<real>>
  {
    if out == [] then []
    else
      HandedOut(out[..|out| - 1], c)
        + match EntryOf(out[|out| - 1], c) case Some(p) => [p] case None => []
  }

  /**
   * The load and storage profiles handed out are exactly the first
   * `Holders` of the loaded list, in order: none is skipped or used twice.
   */
  lemma {:induction false} HandOutIsPrefix(rows: seq<ClassRow>, out: seq<AgentRow>, c: Resource, source: seq<seq<real>>)
    requires c != Pv
    requires |out| == |rows|
    requires forall j :: 0 <= j < |rows| ==> Assigned(rows, j, c, source, EntryOf(out[j], c))
    ensures Holders(rows, c) <= |source|
    ensures HandedOut(out, c) == source[..Holders(rows, c)]
    decreases |rows|
  {
    if rows != [] {
      var n := |rows| - 1;
      var rows', out' := rows[..n], out[..n];
      forall j | 0 <= j < n ensures Assigned(rows', j, c, source, EntryOf(out'[j], c)) {
        assert Assigned(rows, j, c, source, EntryOf(out[j], c));
        assert rows'[..j] == rows[..j];
      }
      HandOutIsPrefix(rows', out', c, source);
      assert Assigned(rows, n, c, source, EntryOf(out[n], c));
      assert rows[..n] == rows';
      var k := Holders(rows', c);
      if Truthy(FlagOf(rows[n], c)) {
        assert source[..k + 1] == source[..k] + [source[k]];
      }
    }
  }

  /**
   * In a distributed agent data array the load profiles and the storage
   * profiles appear in agent order as the leading part of their loaded lists.
   */
  lemma DistributedInOrder(rows: seq<ClassRow>, out: seq<AgentRow>,
                           loads: seq<seq<real>>, pvs: seq<seq<real>>, esss: seq<seq<real>>)
    requires Distributed(rows, out, loads, pvs, esss)
    ensures Holders(rows, Load) <= |loads| && Holders(rows, Ess) <= |esss|
    ensures HandedOut(out, Load) == loads[..Holders(rows, Load)]
    ensures HandedOut(out, Ess) == esss[..Holders(rows, Ess)]
  {
    HandOutIsPrefix(rows, out, Load, loads);
    HandOutIsPrefix(rows, out, Ess, esss);
  }

  // ---------------------------------------------------------------------------
  // The data holder
  // ---------------------------------------------------------------------------

  class Data {
    /** First simulated step within the loaded series. */
    const simStart: int
    /** Number of simulated steps. */
    const numSteps: nat
    /** Whether negative utility prices are kept. */
    const negativePricing: bool
    /** Which agents own a load, a PV panel and a storage unit. */
    const classificationArray: seq<ClassRow>
    const loadArray: seq<seq<real>>
    const pvGenArray: seq<seq<real>>
    const essList: seq<seq<real>>
    /** The utility's price per step. */
    const utilityPricingProfile: array<real>
    /** Per agent, the traded volume of every step. */
    var tradedVolume: map<AgentId, seq<real>>

    constructor (simStart: int, numSteps: nat, negativePricing: bool, classificationArray: seq<ClassRow>,
                 loadArray: seq<seq<real>>, pvGenArray: seq<seq<real>>, essList: seq<seq<real>>,
                 utilityPricingProfile: array<real>)
      ensures this.simStart == simStart && this.numSteps == numSteps
      ensures this.negativePricing == negativePricing && this.classificationArray == classificationArray
      ensures this.loadArray == loadArray && this.pvGenArray == pvGenArray && this.essList == essList
      ensures this.utilityPricingProfile == utilityPricingProfile
      ensures tradedVolume == map[]
    {
      this.simStart, this.numSteps, this.negativePricing := simStart, numSteps, negativePricing;
      this.classificationArray := classificationArray;
      this.loadArray, this.pvGenArray, this.essList := loadArray, pvGenArray, essList;
      this.utilityPricingProfile := utilityPricingProfile;
      tradedVolume := map[];
    }

    /**
     * `slice_from_to`: cuts a loaded series to `[sim_start : sim_start +
     * num_steps + foresight]`. A list of profiles is cut profile by profile
     * in place; a flat list is returned cut; anything else is refused.
     */
    method SliceFromTo(file: TimeSeries, foresight: int) returns (r: Result<seq<Cell>>)
      modifies if file.PyList? then {file.cells} else {}
      ensures file.NotAList? ==> r == Failure(if file.size == 0 then IndexError else TypeError)
      ensures file.PyList? ==>
        r == SliceList(old(file.cells[..]), simStart, simStart + numSteps + foresight)
      ensures file.PyList? ==>
        file.cells[..] == Rewritten(old(file.cells[..]), simStart, simStart + numSteps + foresight)
    {
      if file.NotAList? {
        // `file[0]` is looked up first; a non-list then matches neither branch.
        if file.size == 0 {
          return Failure(IndexError);
        }
        return Failure(TypeError);
      }
      var a := file.cells;
      var start, stop := simStart, simStart + numSteps + foresight;
      if a.Length == 0 {
        return Failure(IndexError);
      }
      if a[0].Value? {
        return Success(PySlice(a[..], start, stop));
      }
      r := TrimProfiles(a, start, stop);
    }

    /**
     * One agent's turn for one resource: with a truthy flag, hand out the
     * profile at the counter and advance it, failing when the list has run
     * out; with a falsy flag, nothing.
     */
    static method TakeProfile(rows: seq<ClassRow>, agent: nat, c: Resource, source: seq<seq<real>>, count: nat)
      returns (entry: Option<seq<real>>, count': nat, ok: bool)
      requires agent < |rows|
      requires count == Holders(rows[..agent], c) <= |source|
      ensures ok <==> Holders(rows[..agent + 1], c) <= |source|
      ensures ok ==> count' == Holders(rows[..agent + 1], c) && Assigned(rows, agent, c, source, entry)
      ensures !ok ==> Holders(rows, c) > |source|
    {
      assert rows[..agent + 1][..agent] == rows[..agent];
      var f := FlagOf(rows[agent], c);
      if !Truthy(f) {
        return None, count, true;
      }
      if count >= |source| {
        HoldersMonotone(rows, agent + 1, c);
        return None, count, false;
      }
      entry := Some(if c == Pv then Scaled(source[count], f) else source[count]);
      return entry, count + 1, true;
    }

    /**
     * `fill_in_classification_array`: walks the agents with one counter per
     * resource, writing into a copy of the classification array, so the
     * array itself is not changed. Running out of loaded profiles fails.
     */
    method FillInClassificationArray() returns (r: Result<seq<AgentRow>>)
      ensures r.Success? <==>
        && Holders(classificationArray, Load) <= |loadArray|
        && Holders(classificationArray, Pv) <= |pvGenArray|
        && Holders(classificationArray, Ess) <= |essList|
      ensures r.Failure? ==> r.error == IndexError
      ensures r.Success? ==> Distributed(classificationArray, r.value, loadArray, pvGenArray, essList)
    {
      var rows := classificationArray;
      var agentData := new AgentRow[|rows|](_ => AgentRow(None, None, None));
      var load, pv, ess := 0, 0, 0;
      for agent := 0 to |rows|
        invariant load == Holders(rows[..agent], Load) <= |loadArray|
        invariant pv == Holders(rows[..agent], Pv) <= |pvGenArray|
        invariant ess == Holders(rows[..agent], Ess) <= |essList|
        invariant forall j :: 0 <= j < agent ==>
          && Assigned(rows, j, Load, loadArray, agentData[j].load)
          && Assigned(rows, j, Pv, pvGenArray, agentData[j].pv)
          && Assigned(rows, j, Ess, essList, agentData[j].ess)
      {
        var loadEntry, pvEntry, essEntry, ok;
        loadEntry, load, ok := TakeProfile(rows, agent, Load, loadArray, load);
        if !ok {
          return Failure(IndexError);
        }
        pvEntry, pv, ok := TakeProfile(rows, agent, Pv, pvGenArray, pv);
        if !ok {
          return Failure(IndexError);
        }
        essEntry, ess, ok := TakeProfile(rows, agent, Ess, essList, ess);
        if !ok {
          return Failure(IndexError);
        }
        agentData[agent] := AgentRow(loadEntry, pvEntry, essEntry);
      }
      assert rows[..|rows|] == rows;
      r := Success(agentData[..]);
    }

    /** The utility price profile with every negative price raised to zero. */
    static function Floored(profile: seq<real>): (r: seq<real>)
      ensures |r| == |profile|
      ensures forall i :: 0 <= i < |r| ==> r[i] >= 0.0
      ensures forall i :: 0 <= i < |r| && profile[i] >= 0.0 ==> r[i] == profile[i]
      ensures forall i :: 0 <= i < |r| && profile[i] < 0.0 ==> r[i] == 0.0
    {
      seq(|profile|, i requires 0 <= i < |profile| => if profile[i] < 0.0 then 0.0 else profile[i])
    }

    /**
     * `utility_pricing_profile[utility_pricing_profile < 0] = 0`, applied
     * when negative pricing is switched off.
     */
    method FloorUtilityPrices()
      modifies utilityPricingProfile
      ensures utilityPricingProfile[..] ==
        if negativePricing then old(utilityPricingProfile[..]) else Floored(old(utilityPricingProfile[..]))
    {
      if negativePricing {
        return;
      }
      var a := utilityPricingProfile;
      for i := 0 to a.Length
        invariant forall j :: 0 <= j < i ==> a[j] == Floored(old(a[..]))[j]
        invariant forall j :: i <= j < a.Length ==> a[j] == old(a[j])
      {
        if a[i] < 0.0 {
          a[i] := 0.0;
        }
      }
    }

    /** `initiate_measurement_dict`: a zeroed traded-volume series for every agent. */
    method InitiateMeasurementDict(agentIds: set<AgentId>)
      modifies this
      ensures tradedVolume == old(tradedVolume) + map id | id in agentIds :: seq(numSteps, _ => 0.0)
    {
      tradedVolume := tradedVolume + map id | id in agentIds :: seq(numSteps, _ => 0.0);
    }

    /**
     * `fill_measurement_dict`: the agent's traded volume at `stepCount` becomes
     * the sum of what it was allotted in this step's settlement. The sum is
     * taken first, so an agent missing from the settlement lists, then one
     * missing from the measurements, fails with a key error; a step past the
     * series fails with an index error.
     */
    method FillMeasurementDict(agentId: AgentId, stepCount: nat, whoGetsWhat: map<AgentId, seq<real>>)
      returns (fault: Option<Fault>)
      modifies this
      ensures fault.None? <==>
        agentId in whoGetsWhat && agentId in old(tradedVolume) && stepCount < |old(tradedVolume)[agentId]|
      ensures fault.Some? ==> tradedVolume == old(tradedVolume)
      ensures fault.Some? ==> fault.value == if agentId in whoGetsWhat && agentId in old(tradedVolume) then IndexError else KeyError
      ensures fault.None? ==>
        tradedVolume == old(tradedVolume)[agentId := old(tradedVolume)[agentId][stepCount := Sum(whoGetsWhat[agentId])]]
    {
      if agentId !in whoGetsWhat {
        return Some(KeyError);
      }
      var volume := Sum(whoGetsWhat[agentId]);
      if agentId !in tradedVolume {
        return Some(KeyError);
      }
      var series := tradedVolume[agentId];
      if stepCount >= |series| {
        return Some(IndexError);
      }
      tradedVolume := tradedVolume[agentId := series[stepCount := volume]];
      fault := None;
    }
  }
}
