/**
 * The input panel (renderInputs) and its slider controls (createSlider):
 * one slider per program input, kept across re-renders by name, re-synced
 * with the program's latest input data, and dropped once the program no
 * longer declares the input.
 */
module InputPanel {
  import opened Values

  /** The evaluator's number value that an input's current value lives in; the slider writes into it. */
  class NumberRef {
    var val: real

    constructor (v: real)
      ensures val == v
    {
      val := v;
    }
  }

  /**
   * An input as the program declares it: optional bounds and step (absent
   * when the program gave none) and the number cell holding its value.
   */
  datatype InputData = InputData(minValue: Option<real>, maxValue: Option<real>, stepValue: Option<real>, currentValue: NumberRef)

  /** `v || default` on a number: an absent value and 0 both fall back to the default. */
  function OrDefault(v: Option<real>, default: real): (r: real)
    ensures v.Some? && v.value != 0.0 ==> r == v.value
    ensures v.None? || v.value == 0.0 ==> r == default
    ensures default != 0.0 ==> r != 0.0
  {
    if v.Some? && v.value != 0.0 then v.value else default
  }

  /** The effective range and step a slider takes from input data. */
  function MinOf(data: InputData): real { OrDefault(data.minValue, 0.0) }
  function MaxOf(data: InputData): real { OrDefault(data.maxValue, 1.0) }
  function StepOf(data: InputData): real { OrDefault(data.stepValue, 0.001) }

  /** The step a slider uses is never zero, so every division by it is defined. */
  lemma StepNeverZero(data: InputData)
    ensures StepOf(data) != 0.0
    ensures data.stepValue.None? || data.stepValue.value == 0.0 ==> StepOf(data) == 0.001
  {
  }

  /**
   * Dividing a value by the step and multiplying back gives the value again
   * (with exact reals; v / step need not be a whole number).
   */
  lemma PositionRoundTrip(v: real, step: real)
    requires step != 0.0
    ensures (v / step) * step == v
  {
  }

  /**
   * The state object of one slider. The range input only takes integer
   * positions, so its bounds are the range divided by the step, and a
   * position times the step is the value it stands for.
   */
  class Slider {
    const name: string
    var inputData: InputData
    var minValue: real
    var maxValue: real
    var stepValue: real
    /** The range input's `min`, `max` and `value` attributes. */
    var intMin: real
    var intMax: real
    var value: real

    /** The integer bounds convert back to exactly the slider's range. */
    ghost predicate Valid()
      reads this
    {
      stepValue != 0.0 && intMin * stepValue == minValue && intMax * stepValue == maxValue
    }

    /** The slider reflects `data`: its range and step are data's with the defaults applied. */
    ghost predicate SyncedWith(data: InputData)
      reads this
    {
      inputData == data && minValue == MinOf(data) && maxValue == MaxOf(data) && stepValue == StepOf(data)
    }

    /** The slider's position stands for the value v. */
    ghost predicate Shows(v: real)
      reads this
    {
      value * stepValue == v
    }

    /** createSlider: the slider is set up from the data, the position included. */
    constructor (name: string, data: InputData)
      ensures Valid() && SyncedWith(data) && this.name == name
      ensures Shows(data.currentValue.val)
    {
      this.name := name;
      inputData := data;
      minValue, maxValue, stepValue := 0.0, 1.0, 1.0;
      intMin, intMax, value := 0.0, 1.0, 0.0;
      new;
      UpdateState(data, true);
      PositionRoundTrip(data.currentValue.val, stepValue);
    }

    /**
     * updateState: take the new data with the defaults applied and recompute
     * the integer bounds; the position is set only when asked (on creation),
     * so a re-render never moves a slider the user has dragged.
     */
    method UpdateState(data: InputData, setValue: bool)
      modifies this
      ensures Valid() && SyncedWith(data)
      ensures intMin == minValue / stepValue && intMax == maxValue / stepValue
      ensures value == if setValue then data.currentValue.val / stepValue else old(value)
    {
      inputData := data;
      minValue := OrDefault(data.minValue, 0.0);
      maxValue := OrDefault(data.maxValue, 1.0);
      stepValue := OrDefault(data.stepValue, 0.001);

      intMin := minValue / stepValue;
      intMax := maxValue / stepValue;

      if setValue {
        value := data.currentValue.val / stepValue;
      }
      PositionRoundTrip(minValue, stepValue);
      PositionRoundTrip(maxValue, stepValue);
    }

    /**
     * oninput: the position the range input reports, times the step, is
     * written into the input's number cell, where the program reads it.
     */
    method OnInput(position: real)
      requires Valid()
      modifies inputData.currentValue
      ensures inputData.currentValue.val == position * stepValue
      ensures old(Shows(inputData.currentValue.val)) && position == value ==>
        inputData.currentValue.val == old(inputData.currentValue.val)
    {
      inputData.currentValue.val := position * stepValue;
    }
  }

  /**
   * A slider synced with `data`: consistent, showing data's range and step,
   * and at position `v` when it was kept, or at data's current value when
   * it was just created.
   */
  ghost predicate SyncedSlider(ui: Slider, data: InputData, kept: bool, v: real)
    reads ui, data.currentValue
  {
    ui.Valid() && ui.SyncedWith(data) && (kept ==> ui.value == v) && (!kept ==> ui.Shows(data.currentValue.val))
  }

  /** One slot of the panel's map: the slider, the data it was created from, and the sweep mark. */
  datatype InputEntry = InputEntry(ui: Slider, data: InputData, shouldDelete: bool)

  /** The name of the k-th input. */
  function NameAt(inputs: seq<(string, InputData)>, k: nat): string
    requires k < |inputs|
  {
    inputs[k].0
  }

  /** A program's inputs come from a Map: the names are distinct. */
  predicate NamesDistinct(inputs: seq<(string, InputData)>) {
    forall p, q :: 0 <= p < q < |inputs| ==> NameAt(inputs, p) != NameAt(inputs, q)
  }

  /** Two different inputs have different names. */
  lemma NamesDiffer(inputs: seq<(string, InputData)>, p: nat, q: nat)
    requires NamesDistinct(inputs) && p < |inputs| && q < |inputs| && p != q
    ensures inputs[p].0 != inputs[q].0
  {
    if p < q {
      assert NameAt(inputs, p) != NameAt(inputs, q);
    } else {
      assert NameAt(inputs, q) != NameAt(inputs, p);
    }
  }

  /** A prefix of inputs with distinct names has distinct names. */
  lemma NamesDistinctPrefix(inputs: seq<(string, InputData)>, n: nat)
    requires NamesDistinct(inputs) && n <= |inputs|
    ensures NamesDistinct(inputs[..n])
  {
    forall p, q | 0 <= p < q < n
      ensures NameAt(inputs[..n], p) != NameAt(inputs[..n], q)
    {
      NamesDiffer(inputs, p, q);
    }
  }

  /** The names of the program's inputs. */
  function Names(inputs: seq<(string, InputData)>): (r: set<string>)
    ensures forall k :: 0 <= k < |inputs| ==> inputs[k].0 in r
  {
    if inputs == [] then {}
    else Names(inputs[..|inputs| - 1]) + {inputs[|inputs| - 1].0}
  }

  /** Every name of Names belongs to some input. */
  lemma {:induction false} NameIsDeclared(inputs: seq<(string, InputData)>, n: string) returns (k: nat)
    requires n in Names(inputs)
    ensures k < |inputs| && inputs[k].0 == n
  {
    var prefix := inputs[..|inputs| - 1];
    if n == inputs[|inputs| - 1].0 {
      k := |inputs| - 1;
    } else {
      k := NameIsDeclared(prefix, n);
    }
  }

  /** One more input adds its name. */
  lemma NamesSnoc(inputs: seq<(string, InputData)>, i: nat)
    requires i < |inputs|
    ensures Names(inputs[..i + 1]) == Names(inputs[..i]) + {inputs[i].0}
  {
    assert inputs[..i + 1][..i] == inputs[..i];
  }

  /** With distinct names, an input's name is not among the names before it. */
  lemma NameNotYetSynced(inputs: seq<(string, InputData)>, i: nat)
    requires NamesDistinct(inputs) && i < |inputs|
    ensures inputs[i].0 !in Names(inputs[..i])
  {
    if inputs[i].0 in Names(inputs[..i]) {
      var k := NameIsDeclared(inputs[..i], inputs[i].0);
      NamesDiffer(inputs, k, i);
    }
  }

  /** The sliders of a map of entries. */
  function Sliders(m: map<string, InputEntry>): set<Slider> {
    set n | n in m :: m[n].ui
  }

  /** Every slider carries its slot's name (so no two names share a slider: SlidersDistinctPairwise). */
  predicate SlidersNamed(m: map<string, InputEntry>) {
    forall n :: n in m ==> m[n].ui.name == n
  }

  /** A slider's name is fixed, so sliders named after distinct slots are distinct. */
  lemma SlidersDistinctPairwise(m: map<string, InputEntry>)
    requires SlidersNamed(m)
    ensures forall a, b :: a in m && b in m && a != b ==> m[a].ui != m[b].ui
  {
  }

  /** markAll's effect on the map: every slot marked for deletion. */
  function Marked(m: map<string, InputEntry>): (r: map<string, InputEntry>)
    ensures forall n :: n in r <==> n in m
    ensures forall n :: n in r ==> r[n].ui == m[n].ui && r[n].data == m[n].data && r[n].shouldDelete
  {
    map n | n in m :: m[n].(shouldDelete := true)
  }

  /** The sweep's effect on the map: the slots still marked are gone. */
  function Swept(m: map<string, InputEntry>): (r: map<string, InputEntry>)
    ensures forall n :: n in r <==> n in m && !m[n].shouldDelete
    ensures forall n :: n in r ==> r[n] == m[n]
  {
    map n | n in m && !m[n].shouldDelete :: m[n]
  }

  /** Marking then sweeping with no input re-synced in between empties the panel. */
  lemma SweepAfterMarkEmpties(m: map<string, InputEntry>)
    ensures Swept(Marked(m)) == map[]
  {
    assert Swept(Marked(m)).Keys == {};
  }

  /** A sweep over a map with no slot marked removes nothing. */
  lemma SweepKeepsUnmarked(m: map<string, InputEntry>)
    requires forall n :: n in m ==> !m[n].shouldDelete
    ensures Swept(m) == m
  {
  }

  /** Marking does not change which sliders are shown, only the flags. */
  lemma MarkedKeepsSliders(m: map<string, InputEntry>)
    requires SlidersNamed(m)
    ensures SlidersNamed(Marked(m))
    ensures Sliders(Marked(m)) == Sliders(m)
  {
  }

  /**
   * The map after the sync pass over `inputs`, whose k-th slider is list[k]:
   * a name that had a slot keeps it, unmarked; a new name gets a slot with
   * its new slider and its data; every other slot is left as it was.
   */
  function SyncedMap(marked: map<string, InputEntry>, inputs: seq<(string, InputData)>, list: seq<Slider>): map<string, InputEntry>
    requires |list| == |inputs|
  {
    if inputs == [] then marked
    else
      var k := |inputs| - 1;
      var name := inputs[k].0;
      SyncedMap(marked, inputs[..k], list[..k])[name := SyncedEntry(marked, name, inputs[k].1, list[k])]
  }

  /** The slot a synced input ends up with. */
  function SyncedEntry(marked: map<string, InputEntry>, name: string, data: InputData, ui: Slider): InputEntry {
    if name in marked then marked[name].(shouldDelete := false) else InputEntry(ui, data, false)
  }

  /** Syncing one more input writes its slot. */
  lemma SyncedMapSnoc(marked: map<string, InputEntry>, inputs: seq<(string, InputData)>, list: seq<Slider>, ui: Slider)
    requires |list| < |inputs|
    ensures SyncedMap(marked, inputs[..|list| + 1], list + [ui])
         == SyncedMap(marked, inputs[..|list|], list)[inputs[|list|].0 := SyncedEntry(marked, inputs[|list|].0, inputs[|list|].1, ui)]
  {
    var i := |list|;
    assert inputs[..i + 1][..i] == inputs[..i];
    assert (list + [ui])[..i] == list;
  }

  /** A name the sync pass did not visit keeps the slot (or absence) it had. */
  lemma {:induction false} SyncedMapElsewhere(marked: map<string, InputEntry>, inputs: seq<(string, InputData)>, list: seq<Slider>, n: string)
    requires |list| == |inputs| && n !in Names(inputs)
    ensures n in SyncedMap(marked, inputs, list) <==> n in marked
    ensures n in marked ==> SyncedMap(marked, inputs, list)[n] == marked[n]
  {
    if inputs != [] {
      var k := |inputs| - 1;
      SyncedMapElsewhere(marked, inputs[..k], list[..k], n);
    }
  }

  /** A visited name holds the slot its sync wrote, since no later input has the same name. */
  lemma {:induction false} SyncedMapAt(marked: map<string, InputEntry>, inputs: seq<(string, InputData)>, list: seq<Slider>, k: nat)
    requires |list| == |inputs| && NamesDistinct(inputs) && k < |inputs|
    ensures inputs[k].0 in SyncedMap(marked, inputs, list)
    ensures SyncedMap(marked, inputs, list)[inputs[k].0] == SyncedEntry(marked, inputs[k].0, inputs[k].1, list[k])
  {
    var last := |inputs| - 1;
    if k < last {
      assert inputs[..last][k] == inputs[k];
      NamesDistinctPrefix(inputs, last);
      NamesDiffer(inputs, k, last);
      SyncedMapAt(marked, inputs[..last], list[..last], k);
    }
  }

  /** The synced map holds the old names and the visited ones, and nothing else. */
  lemma {:induction false} SyncedMapKeys(marked: map<string, InputEntry>, inputs: seq<(string, InputData)>, list: seq<Slider>, n: string)
    requires |list| == |inputs|
    ensures n in SyncedMap(marked, inputs, list) <==> n in marked || n in Names(inputs)
  {
    if inputs != [] {
      var k := |inputs| - 1;
      SyncedMapKeys(marked, inputs[..k], list[..k], n);
    }
  }

  /**
   * The sliders collected by the sync pass so far: the k-th carries the k-th
   * input's name, is that name's old slider when it had a slot and otherwise
   * none of the old sliders (and so no slider is collected twice:
   * CollectedDistinct).
   */
  predicate Collected(before: map<string, InputEntry>, inputs: seq<(string, InputData)>, list: seq<Slider>)
    requires |list| <= |inputs|
  {
    (forall k :: 0 <= k < |list| ==>
      var name := inputs[k].0;
      list[k].name == name &&
      (name in before ==> list[k] == before[name].ui) &&
      (name !in before ==> list[k] !in Sliders(before)))
  }

  /** Collected sliders carry the inputs' names, which are distinct, so the sliders are too. */
  lemma CollectedDistinct(before: map<string, InputEntry>, inputs: seq<(string, InputData)>, list: seq<Slider>)
    requires |list| <= |inputs| && NamesDistinct(inputs) && Collected(before, inputs, list)
    ensures forall p, q :: 0 <= p < q < |list| ==> list[p] != list[q]
  {
    forall p, q | 0 <= p < q < |list|
      ensures list[p] != list[q]
    {
      NamesDiffer(inputs, p, q);
    }
  }

  /**
   * The list renderInputs hands to the panel once the first |list| inputs
   * are synced, given the names that already had a slot: each input's
   * slider in order, a new input's slider twice in a row (createSlider
   * mounts the new root on the list, and the sync pushes it again after its
   * update).
   */
  function Children(known: set<string>, inputs: seq<(string, InputData)>, list: seq<Slider>): (r: seq<Slider>)
    requires |list| <= |inputs|
  {
    if list == [] then []
    else
      var k := |list| - 1;
      Children(known, inputs, list[..k]) + (if inputs[k].0 in known then [list[k]] else [list[k], list[k]])
  }

  /** Every slider is listed once or twice, and the last one listed is the last slider. */
  lemma {:induction false} ChildrenBounds(known: set<string>, inputs: seq<(string, InputData)>, list: seq<Slider>)
    requires |list| <= |inputs|
    ensures |list| <= |Children(known, inputs, list)| <= 2 * |list|
    ensures list != [] ==> Children(known, inputs, list)[|Children(known, inputs, list)| - 1] == list[|list| - 1]
  {
    if list != [] {
      ChildrenBounds(known, inputs, list[..|list| - 1]);
    }
  }

  /** Syncing one more input appends its slider, twice when its name is new. */
  lemma ChildrenSnoc(known: set<string>, inputs: seq<(string, InputData)>, list: seq<Slider>, ui: Slider)
    requires |list| < |inputs|
    ensures Children(known, inputs, list + [ui])
         == Children(known, inputs, list) + (if inputs[|list|].0 in known then [ui] else [ui, ui])
  {
    assert (list + [ui])[..|list|] == list;
  }

  /** When every input already had a slot, each slider is listed exactly once, in input order. */
  lemma {:induction false} ChildrenAllKnown(known: set<string>, inputs: seq<(string, InputData)>, list: seq<Slider>)
    requires |list| <= |inputs|
    requires forall k :: 0 <= k < |list| ==> inputs[k].0 in known
    ensures Children(known, inputs, list) == list
  {
    if list != [] {
      var k := |list| - 1;
      assert list[..k] + [list[k]] == list;
      ChildrenAllKnown(known, inputs, list[..k]);
      ChildrenSnoc(known, inputs, list[..k], list[k]);
    }
  }

  /** `s` with every occurrence of `x` taken out. */
  function Without(s: seq<Slider>, x: Slider): seq<Slider>
  {
    if s == [] then []
    else Without(s[..|s| - 1], x) + (if s[|s| - 1] == x then [] else [s[|s| - 1]])
  }

  /** Taking out a node that is not there changes nothing. */
  lemma {:induction false} WithoutAbsent(s: seq<Slider>, x: Slider)
    requires x !in s
    ensures Without(s, x) == s
  {
    if s != [] {
      WithoutAbsent(s[..|s| - 1], x);
      assert s[..|s| - 1] + [s[|s| - 1]] == s;
    }
  }

  /**
   * The children a container ends up with when handed `nodes` in order, by
   * the DOM's rule that appending a node already among them moves it to the
   * end: each node once, at its last position.
   */
  function ReplaceChildren(nodes: seq<Slider>): seq<Slider>
  {
    if nodes == [] then []
    else Without(ReplaceChildren(nodes[..|nodes| - 1]), nodes[|nodes| - 1]) + [nodes[|nodes| - 1]]
  }

  /** Handing over one more node moves it to the end. */
  lemma ReplaceChildrenSnoc(nodes: seq<Slider>, u: Slider)
    ensures ReplaceChildren(nodes + [u]) == Without(ReplaceChildren(nodes), u) + [u]
  {
    assert (nodes + [u])[..|nodes|] == nodes;
  }

  /** Taking a node out after appending it is taking it out before. */
  lemma WithoutSnocSelf(s: seq<Slider>, u: Slider)
    ensures Without(s + [u], u) == Without(s, u)
  {
    assert (s + [u])[..|s|] == s;
  }

  /**
   * However many new sliders are listed twice, the panel shows each input's
   * slider exactly once, in input order: the sliders carry the inputs'
   * names, which are distinct.
   */
  lemma {:induction false} ReplaceChildrenShowsEachOnce(known: set<string>, inputs: seq<(string, InputData)>, list: seq<Slider>)
    requires |list| <= |inputs| && NamesDistinct(inputs)
    requires forall k :: 0 <= k < |list| ==> list[k].name == inputs[k].0
    ensures ReplaceChildren(Children(known, inputs, list)) == list
  {
    if list != [] {
      var k := |list| - 1;
      var u := list[k];
      var rest := list[..k];
      assert rest + [u] == list;
      var prev := Children(known, inputs, rest);
      ReplaceChildrenShowsEachOnce(known, inputs, rest);
      forall p | 0 <= p < k
        ensures rest[p] != u
      {
        NamesDiffer(inputs, p, k);
      }
      WithoutAbsent(rest, u);
      ReplaceChildrenSnoc(prev, u);
      var tail := if inputs[k].0 in known then [u] else [u, u];
      assert Children(known, inputs, list) == prev + tail;
      if inputs[k].0 !in known {
        assert prev + tail == (prev + [u]) + [u];
        ReplaceChildrenSnoc(prev + [u], u);
        WithoutSnocSelf(rest, u);
      }
      assert ReplaceChildren(prev + tail) == rest + [u];
    }
  }

  /**
   * The whole of renderInputs on the map: starting from a valid map, marking,
   * syncing every input and sweeping leaves exactly the program's inputs,
   * each holding the slider collected for it; surviving names keep their old
   * slot, new ones hold their data; the sliders stay distinct and named.
   */
  lemma RenderedMap(before: map<string, InputEntry>, inputs: seq<(string, InputData)>, list: seq<Slider>)
    requires SlidersNamed(before) && NamesDistinct(inputs)
    requires forall n :: n in before ==> !before[n].shouldDelete
    requires |list| == |inputs| && Collected(before, inputs, list)
    ensures var m := Swept(SyncedMap(Marked(before), inputs, list));
      (forall n :: n in m <==> n in Names(inputs)) &&
      SlidersNamed(m) && (forall n :: n in m ==> !m[n].shouldDelete) &&
      (forall k :: 0 <= k < |inputs| ==>
        var name := inputs[k].0;
        name in m && m[name].ui == list[k] &&
        (name in before ==> m[name] == before[name]) &&
        (name !in before ==> m[name].data == inputs[k].1))
  {
    var marked := Marked(before);
    var synced := SyncedMap(marked, inputs, list);
    var m := Swept(synced);
    forall k | 0 <= k < |inputs|
      ensures inputs[k].0 in synced && synced[inputs[k].0] == SyncedEntry(marked, inputs[k].0, inputs[k].1, list[k])
    {
      SyncedMapAt(marked, inputs, list, k);
    }
    forall n | n in synced
      ensures synced[n].shouldDelete <==> n !in Names(inputs)
    {
      if n in Names(inputs) {
        var k := NameIsDeclared(inputs, n);
      } else {
        SyncedMapElsewhere(marked, inputs, list, n);
      }
    }
    forall n
      ensures n in m <==> n in Names(inputs)
    {
      SyncedMapKeys(marked, inputs, list, n);
    }
    forall n | n in m
      ensures m[n].ui.name == n
    {
      var k := NameIsDeclared(inputs, n);
    }
  }

  /** The panel's state between renders: the map from input name to its slot. */
  class InputPanelState {
    var inputsMap: map<string, InputEntry>

    ghost predicate Valid()
      reads this
    {
      SlidersNamed(inputsMap) && forall n :: n in inputsMap ==> !inputsMap[n].shouldDelete
    }

    constructor ()
      ensures Valid() && inputsMap == map[]
    {
      inputsMap := map[];
    }

    /** First pass of renderInputs: every slot is marked for deletion. */
    method MarkAll()
      modifies this
      ensures inputsMap == Marked(old(inputsMap))
    {
      var keys := inputsMap.Keys;
      while keys != {}
        invariant keys <= inputsMap.Keys && inputsMap.Keys == old(inputsMap.Keys)
        invariant forall n :: n in inputsMap && n !in keys ==> inputsMap[n] == old(inputsMap[n]).(shouldDelete := true)
        invariant forall n :: n in keys ==> inputsMap[n] == old(inputsMap[n])
        decreases keys
      {
        var inputName :| inputName in keys;
        inputsMap := inputsMap[inputName := inputsMap[inputName].(shouldDelete := true)];
        keys := keys - {inputName};
      }
      assert inputsMap == Marked(old(inputsMap));
    }

    /**
     * The loop body of renderInputs for one program input: a slot is created
     * (with a new slider and the data) when the name is new; either way the
     * slot's slider is re-synced with the program's data, and the slot is
     * unmarked. An existing slot keeps the data it was created with.
     */
    method SyncInput(inputName: string, inputData: InputData, newInputsList: seq<Slider>) returns (ui: Slider, newInputsList': seq<Slider>)
      modifies this, if inputName in inputsMap then {inputsMap[inputName].ui} else {}
      ensures newInputsList' == newInputsList + (if inputName in old(inputsMap) then [ui] else [ui, ui])
      ensures inputsMap == old(inputsMap)[inputName := SyncedEntry(old(inputsMap), inputName, inputData, ui)]
      ensures inputName in old(inputsMap) ==> ui == old(inputsMap[inputName].ui) && ui.value == old(ui.value)
      ensures inputName !in old(inputsMap) ==> fresh(ui) && ui.Shows(inputData.currentValue.val) && ui.name == inputName
      ensures ui.Valid() && ui.SyncedWith(inputData)
    {
      newInputsList' := newInputsList;
      if inputName !in inputsMap {
        // create the input if it does not exist yet; its root is mounted on the list
        var inputUI := new Slider(inputName, inputData);
        newInputsList' := newInputsList' + [inputUI];
        inputsMap := inputsMap[inputName := InputEntry(inputUI, inputData, false)];
      }
      // make sure the input's state is in sync with the program's data
      var inputDataRef := inputsMap[inputName];
      inputDataRef.ui.UpdateState(inputData, false);
      newInputsList' := newInputsList' + [inputDataRef.ui];
      inputsMap := inputsMap[inputName := inputDataRef.(shouldDelete := false)];
      ui := inputDataRef.ui;
    }

    /**
     * One turn of the middle pass of renderInputs: the next program input is
     * synced and its slider collected. Sliders already collected, and old
     * sliders not yet visited, are left untouched.
     */
    method SyncNext(inputs: seq<(string, InputData)>, list: seq<Slider>, newInputsList: seq<Slider>,
                    ghost before: map<string, InputEntry>, ghost values: map<string, real>)
      returns (ui: Slider, newInputsList': seq<Slider>)
      requires SlidersNamed(before) && NamesDistinct(inputs) && values.Keys == before.Keys
      requires |list| < |inputs| && Collected(before, inputs, list)
      requires inputsMap == SyncedMap(before, inputs[..|list|], list)
      requires forall k :: 0 <= k < |list| ==>
        var name := inputs[k].0;
        SyncedSlider(list[k], inputs[k].1, name in before, if name in before then values[name] else 0.0)
      requires forall n :: n in before && n !in Names(inputs[..|list|]) ==> before[n].ui.value == values[n]
      modifies this, Sliders(before)
      ensures inputsMap == SyncedMap(before, inputs[..|list| + 1], list + [ui])
      ensures Collected(before, inputs, list + [ui])
      ensures inputs[|list|].0 !in before ==> fresh(ui)
      ensures newInputsList' == newInputsList + (if inputs[|list|].0 in before then [ui] else [ui, ui])
      ensures forall k :: 0 <= k <= |list| ==>
        var name := inputs[k].0;
        SyncedSlider((list + [ui])[k], inputs[k].1, name in before, if name in before then values[name] else 0.0)
      ensures forall n :: n in before && n !in Names(inputs[..|list| + 1]) ==> before[n].ui.value == values[n]
    {
      var i := |list|;
      var inputName := inputs[i].0;
      var inputData := inputs[i].1;
      NameNotYetSynced(inputs, i);
      SyncedMapElsewhere(before, inputs[..i], list, inputName);
      ghost var touched: set<Slider> := if inputName in before then {before[inputName].ui} else {};
      assert forall k :: 0 <= k < i ==> list[k] !in touched;
      ui, newInputsList' := SyncInput(inputName, inputData, newInputsList);
      forall n | n in before && n !in Names(inputs[..i]) && n != inputName
        ensures before[n].ui.value == values[n]
      {
        assert before[n].ui !in touched;
      }
      forall k | 0 <= k < i
        ensures SyncedSlider(list[k], inputs[k].1, inputs[k].0 in before,
          if inputs[k].0 in before then values[inputs[k].0] else 0.0)
      {
        assert unchanged(list[k], inputs[k].1.currentValue);
      }
      SyncedMapSnoc(before, inputs, list, ui);
      NamesSnoc(inputs, i);
    }

    /**
     * The middle pass of renderInputs: every program input in order is
     * synced into a slot. `sliders` is each input's slider in input order;
     * `newInputsList` is the list the pass builds for the panel, in which a
     * new input's slider appears twice in a row.
     */
    method SyncAll(inputs: seq<(string, InputData)>) returns (sliders: seq<Slider>, newInputsList: seq<Slider>)
      requires SlidersNamed(inputsMap) && NamesDistinct(inputs)
      modifies this, Sliders(inputsMap)
      ensures |sliders| == |inputs|
      ensures inputsMap == SyncedMap(old(inputsMap), inputs, sliders)
      ensures Collected(old(inputsMap), inputs, sliders)
      ensures newInputsList == Children(old(inputsMap).Keys, inputs, sliders)
      ensures ReplaceChildren(newInputsList) == sliders
      ensures forall k :: 0 <= k < |inputs| && inputs[k].0 !in old(inputsMap) ==> fresh(sliders[k])
      ensures forall k :: 0 <= k < |inputs| ==>
        var name := inputs[k].0;
        SyncedSlider(sliders[k], inputs[k].1, name in old(inputsMap),
          if name in old(inputsMap) then old(inputsMap[name].ui.value) else 0.0)
    {
      ghost var before := inputsMap;
      ghost var values := map n | n in before :: before[n].ui.value;
      sliders, newInputsList := [], [];
      var i := 0;
      while i < |inputs|
        invariant 0 <= i <= |inputs| && |sliders| == i
        invariant inputsMap == SyncedMap(before, inputs[..i], sliders)
        invariant Collected(before, inputs, sliders)
        invariant newInputsList == Children(before.Keys, inputs, sliders)
        invariant forall k :: 0 <= k < i && inputs[k].0 !in before ==> fresh(sliders[k])
        invariant forall k :: 0 <= k < i ==>
          var name := inputs[k].0;
          SyncedSlider(sliders[k], inputs[k].1, name in before, if name in before then values[name] else 0.0)
        invariant forall n :: n in before && n !in Names(inputs[..i]) ==> before[n].ui.value == values[n]
      {
        var ui;
        ui, newInputsList := SyncNext(inputs, sliders, newInputsList, before, values);
        ChildrenSnoc(before.Keys, inputs, sliders, ui);
        sliders := sliders + [ui];
        i := i + 1;
      }
      assert inputs[..i] == inputs;
      ReplaceChildrenShowsEachOnce(before.Keys, inputs, sliders);
    }

    /** Last pass of renderInputs: every slot still marked is removed. */
    method Sweep()
      modifies this
      ensures inputsMap == Swept(old(inputsMap))
    {
      var keys := inputsMap.Keys;
      while keys != {}
        invariant keys <= inputsMap.Keys
        invariant forall n :: n in inputsMap ==> n in old(inputsMap) && inputsMap[n] == old(inputsMap[n])
        invariant forall n :: n in old(inputsMap) && n !in keys ==> (n in inputsMap <==> !old(inputsMap)[n].shouldDelete)
        decreases keys
      {
        var inputName :| inputName in keys;
        if inputsMap[inputName].shouldDelete {
          inputsMap := map n | n in inputsMap && n != inputName :: inputsMap[n];
        }
        keys := keys - {inputName};
      }
      assert inputsMap == Swept(old(inputsMap));
    }

    /**
     * renderInputs: mark every slot, sync a slot for every program input in
     * order (collecting their sliders as the panel's new children), then
     * drop the slots left marked. Afterwards the map holds exactly the
     * program's inputs; a name that survives keeps its slider, its slot's
     * data and its position, and a new name gets a new slider. The list
     * handed to the panel names a new slider twice; the panel shows each
     * input's slider once, in input order.
     */
    method RenderInputs(inputs: seq<(string, InputData)>) returns (sliders: seq<Slider>, newInputsList: seq<Slider>)
      requires Valid() && NamesDistinct(inputs)
      modifies this, Sliders(inputsMap)
      ensures Valid()
      ensures forall n :: n in inputsMap <==> n in Names(inputs)
      ensures |sliders| == |inputs|
      ensures forall k :: 0 <= k < |inputs| ==>
        var name := inputs[k].0;
        name in inputsMap && sliders[k] == inputsMap[name].ui &&
        SyncedSlider(sliders[k], inputs[k].1, name in old(inputsMap),
          if name in old(inputsMap) then old(inputsMap[name].ui.value) else 0.0)
      ensures forall k :: 0 <= k < |inputs| && inputs[k].0 in old(inputsMap) ==>
        inputsMap[inputs[k].0] == old(inputsMap[inputs[k].0])
      ensures forall k :: 0 <= k < |inputs| && inputs[k].0 !in old(inputsMap) ==>
        fresh(sliders[k]) && inputsMap[inputs[k].0].data == inputs[k].1
      ensures newInputsList == Children(old(inputsMap).Keys, inputs, sliders)
      ensures ReplaceChildren(newInputsList) == sliders
    {
      ghost var before := inputsMap;
      MarkAll();
      assert inputsMap == Marked(before);
      assert Sliders(inputsMap) == Sliders(before) && SlidersNamed(inputsMap);
      assert inputsMap.Keys == before.Keys;
      sliders, newInputsList := SyncAll(inputs);
      Sweep();
      RenderedMap(before, inputs, sliders);
    }
  }
}
