/**
 * The report filter panel: the "generate" button turns five check boxes into
 * the list of blackboard-artifact type codes the report covers, registering
 * each type with the report configuration first; the cancel button raises a
 * flag; the progress bar is advanced by counts.
 */
module ReportFilter {

  /** The artifact types the panel registers with the report configuration. */
  datatype ArtifactType =
    | WebBookmark | WebCookie | WebHistory | WebDownload
    | GenInfo | KeywordHit | HashsetHit
    | RecentObject | InstalledProg | DeviceAttached

  /** The state of the five check boxes, in panel order. */
  datatype Selection = Selection(box1: bool, box2: bool, box3: bool, box4: bool, box5: bool)

  /** Each box's registered types and the codes it appends, in source order. */
  const WebTypes: seq<ArtifactType> := [WebBookmark, WebCookie, WebHistory, WebDownload]
  const WebCodes: seq<int> := [2, 3, 4, 5]
  const InfoTypes: seq<ArtifactType> := [GenInfo]
  const InfoCodes: seq<int> := [1]
  const KeywordTypes: seq<ArtifactType> := [KeywordHit]
  const KeywordCodes: seq<int> := [9]
  const HashsetTypes: seq<ArtifactType> := [HashsetHit]
  const HashsetCodes: seq<int> := [10]
  const DeviceTypes: seq<ArtifactType> := [RecentObject, InstalledProg, DeviceAttached]
  const DeviceCodes: seq<int> := [6, 8, 11]

  /** Java `int` range. */
  const IntMin: int := -0x8000_0000
  const IntMax: int := 0x7FFF_FFFF

  /** True iff no type of the group is refused by the configuration. */
  predicate Accepted(types: seq<ArtifactType>, refused: set<ArtifactType>)
  {
    forall i :: 0 <= i < |types| ==> types[i] !in refused
  }

  /**
   * What one box contributes: its codes only when it is selected and every
   * registration in its try block succeeded (the appends follow the calls).
   */
  function Contribution(selected: bool, types: seq<ArtifactType>, codes: seq<int>,
                        refused: set<ArtifactType>): seq<int>
  {
    if selected && Accepted(types, refused) then codes else []
  }

  /** The filter list a click on the generate button builds. */
  function Filters(sel: Selection, refused: set<ArtifactType>): seq<int>
  {
    Contribution(sel.box1, WebTypes, WebCodes, refused)
    + Contribution(sel.box2, InfoTypes, InfoCodes, refused)
    + Contribution(sel.box3, KeywordTypes, KeywordCodes, refused)
    + Contribution(sel.box4, HashsetTypes, HashsetCodes, refused)
    + Contribution(sel.box5, DeviceTypes, DeviceCodes, refused)
  }

  /**
   * The configuration after a group's registrations: each call enables its
   * type until the first one that throws; the rest of the group is skipped.
   */
  function Registered(config: map<ArtifactType, bool>, types: seq<ArtifactType>,
                      refused: set<ArtifactType>): map<ArtifactType, bool>
    decreases |types|
  {
    if types == [] || types[0] in refused then config
    else Registered(config[types[0] := true], types[1..], refused)
  }

  function RegisterIf(selected: bool, config: map<ArtifactType, bool>,
                      types: seq<ArtifactType>, refused: set<ArtifactType>): map<ArtifactType, bool>
  {
    if selected then Registered(config, types, refused) else config
  }

  /** The configuration after the five groups, in box order. */
  function Configured(config: map<ArtifactType, bool>, sel: Selection,
                      refused: set<ArtifactType>): map<ArtifactType, bool>
  {
    var c1 := RegisterIf(sel.box1, config, WebTypes, refused);
    var c2 := RegisterIf(sel.box2, c1, InfoTypes, refused);
    var c3 := RegisterIf(sel.box3, c2, KeywordTypes, refused);
    var c4 := RegisterIf(sel.box4, c3, HashsetTypes, refused);
    RegisterIf(sel.box5, c4, DeviceTypes, refused)
  }

  /** Java `int` addition: the sum wraps into the 32-bit range. */
  function AddInt(a: int, b: int): (r: int)
    requires IntMin <= a <= IntMax && IntMin <= b <= IntMax
    ensures IntMin <= r <= IntMax
    ensures IntMin <= a + b <= IntMax ==> r == a + b
    ensures r == a + b || r == a + b - 0x1_0000_0000 || r == a + b + 0x1_0000_0000
  {
    if a + b > IntMax then a + b - 0x1_0000_0000
    else if a + b < IntMin then a + b + 0x1_0000_0000
    else a + b
  }

  /** A progress bar's bounded range model keeps its value within [lo, hi]. */
  function Clamp(v: int, lo: int, hi: int): (r: int)
    requires lo <= hi
    ensures lo <= r <= hi
    ensures lo <= v <= hi ==> r == v
    ensures v < lo ==> r == lo
    ensures v > hi ==> r == hi
  {
    if v < lo then lo else if v > hi then hi else v
  }

  /** The panel with the static filter list and flags it shares. */
  class ReportFilterPanel {
    /** The static list of selected artifact type codes. */
    var filters: seq<int>
    /** The static cancellation flag. */
    var cancel: bool
    /** The report configuration's per-type generate flags. */
    var genTypes: map<ArtifactType, bool>
    /** The types whose registration the configuration refuses (throws). */
    const refused: set<ArtifactType>
    /** Progress bar value and range. */
    var progValue: int
    var progMin: int
    var progMax: int
    /** Enabled state of the generate button, the progress bar and cancel. */
    var generateEnabled: bool
    var progEnabled: bool
    var cancelEnabled: bool

    ghost predicate Valid()
      reads this
    {
      IntMin <= progMin <= progValue <= progMax <= IntMax
    }

    /**
     * A new panel. The filter list and the configuration are static, so they
     * keep what an earlier panel left in them; only `cancel` is reset. The
     * constructor asks the configuration for all its types, which may change
     * it; `configAfterGetAllTypes` is the configuration as that call leaves it.
     */
    constructor (staticFilters: seq<int>, configAfterGetAllTypes: map<ArtifactType, bool>,
                 refusedTypes: set<ArtifactType>)
      ensures Valid()
      ensures filters == staticFilters && genTypes == configAfterGetAllTypes && refused == refusedTypes
      ensures !cancel
      ensures progValue == 0 && progMin == 0 && progMax == 100
      ensures generateEnabled && !progEnabled && !cancelEnabled
    {
      filters := staticFilters;
      genTypes := configAfterGetAllTypes;
      refused := refusedTypes;
      cancel := false;
      progValue, progMin, progMax := 0, 0, 100;
      generateEnabled, progEnabled, cancelEnabled := true, false, false;
    }

    /** The configuration call: throws (ok == false) for a refused type. */
    method SetGenArtifactType(t: ArtifactType) returns (ok: bool)
      modifies this`genTypes
      ensures ok == (t !in refused)
      ensures genTypes == if ok then old(genTypes)[t := true] else old(genTypes)
    {
      ok := t !in refused;
      if ok {
        genTypes := genTypes[t := true];
      }
    }

    /**
     * The configuration calls of one try block, in order: the first call that
     * throws ends the block, and `ok` says whether none did.
     */
    method RegisterAll(types: seq<ArtifactType>) returns (ok: bool)
      modifies this`genTypes
      ensures ok == Accepted(types, refused)
      ensures genTypes == Registered(old(genTypes), types, refused)
      decreases |types|
    {
      if types == [] {
        return true;
      }
      ok := SetGenArtifactType(types[0]);
      if ok {
        ok := RegisterAll(types[1..]);
        assert forall i :: 1 <= i < |types| ==> types[i] == types[1..][i - 1];
      }
    }

    /**
     * One check box: when it is selected, run its registrations and append
     * its codes after them, inside the same try block.
     */
    method ApplyBox(selected: bool, types: seq<ArtifactType>, codes: seq<int>)
      modifies this`genTypes, this`filters
      ensures filters == old(filters) + Contribution(selected, types, codes, refused)
      ensures genTypes == RegisterIf(selected, old(genTypes), types, refused)
    {
      if selected {
        var ok := RegisterAll(types);
        if ok {
          filters := filters + codes;
        }
      }
    }

    /**
     * The generate button's effect on the list and the configuration: clear
     * the list, then apply the five boxes in panel order.
     */
    method BuildFilters(sel: Selection)
      modifies this`filters, this`genTypes
      ensures filters == Filters(sel, refused)
      ensures genTypes == Configured(old(genTypes), sel, refused)
    {
      filters := [];
      ghost var c0 := genTypes;
      ApplyBox(sel.box1, WebTypes, WebCodes);
      ghost var c1, f1 := genTypes, filters;
      ApplyBox(sel.box2, InfoTypes, InfoCodes);
      ghost var c2, f2 := genTypes, filters;
      ApplyBox(sel.box3, KeywordTypes, KeywordCodes);
      ghost var c3, f3 := genTypes, filters;
      ApplyBox(sel.box4, HashsetTypes, HashsetCodes);
      ghost var c4, f4 := genTypes, filters;
      ApplyBox(sel.box5, DeviceTypes, DeviceCodes);
      assert filters == f4 + Contribution(sel.box5, DeviceTypes, DeviceCodes, refused);
      assert f4 == f3 + Contribution(sel.box4, HashsetTypes, HashsetCodes, refused);
      assert f3 == f2 + Contribution(sel.box3, KeywordTypes, KeywordCodes, refused);
      assert f2 == f1 + Contribution(sel.box2, InfoTypes, InfoCodes, refused);
      assert f1 == Contribution(sel.box1, WebTypes, WebCodes, refused);
    }

    /**
     * The generate button: disable it, enable the progress bar and cancel,
     * reset the progress value, and rebuild the filter list.
     */
    method Generate(sel: Selection)
      requires Valid()
      modifies this
      ensures Valid() && cancel == old(cancel)
      ensures filters == Filters(sel, refused)
      ensures genTypes == Configured(old(genTypes), sel, refused)
      ensures progMin == old(progMin) && progMax == old(progMax)
      ensures progValue == Clamp(0, progMin, progMax)
      ensures !generateEnabled && progEnabled && cancelEnabled
    {
      generateEnabled := false;
      progEnabled := true;
      cancelEnabled := true;
      progValue := Clamp(0, progMin, progMax);
      BuildFilters(sel);
    }

    /** The cancel button raises the shared flag. */
    method Cancel()
      modifies this`cancel
      ensures cancel
    {
      cancel := true;
    }

    /**
     * Advances the progress bar by `count`: the new value is the old one plus
     * `count` in Java `int` arithmetic, kept within the bar's range.
     */
    method ProgBarSet(count: int)
      requires Valid() && IntMin <= count <= IntMax
      modifies this`progValue
      ensures Valid()
      ensures progValue == Clamp(AddInt(old(progValue), count), progMin, progMax)
      ensures progMin <= old(progValue) + count <= progMax ==> progValue == old(progValue) + count
    {
      var start := progValue;
      var end := AddInt(start, count);
      progValue := Clamp(end, progMin, progMax);
    }
  }

  /** The codes of the five boxes are pairwise distinct. */
  predicate NoDuplicates(s: seq<int>)
  {
    forall i, j :: 0 <= i < j < |s| ==> s[i] != s[j]
  }

  /** With every box selected and nothing refused, the list is the full one. */
  lemma AllSelected()
    ensures Filters(Selection(true, true, true, true, true), {}) == [2, 3, 4, 5, 1, 9, 10, 6, 8, 11]
  {
  }

  /** With no box selected the list is empty, whatever it held before. */
  lemma NoneSelected(refused: set<ArtifactType>)
    ensures Filters(Selection(false, false, false, false, false), refused) == []
  {
  }

  /**
   * A code is in the list exactly when the box that owns it is selected and
   * its whole group was registered: the list reflects the current selection
   * and nothing else.
   */
  lemma FiltersExactly(sel: Selection, refused: set<ArtifactType>, c: int)
    ensures c in Filters(sel, refused) <==>
      || (c in WebCodes && sel.box1 && Accepted(WebTypes, refused))
      || (c in InfoCodes && sel.box2 && Accepted(InfoTypes, refused))
      || (c in KeywordCodes && sel.box3 && Accepted(KeywordTypes, refused))
      || (c in HashsetCodes && sel.box4 && Accepted(HashsetTypes, refused))
      || (c in DeviceCodes && sel.box5 && Accepted(DeviceTypes, refused))
  {
  }

  /** The list never holds a code twice. */
  lemma FiltersNoDuplicates(sel: Selection, refused: set<ArtifactType>)
    ensures NoDuplicates(Filters(sel, refused))
  {
  }

  /**
   * A group's registrations switch on the accepted types it names and leave
   * every other entry of the configuration as it was.
   */
  lemma {:induction false} RegisteredEffect(config: map<ArtifactType, bool>,
                                            types: seq<ArtifactType>,
                                            refused: set<ArtifactType>, t: ArtifactType)
    ensures t !in types || t in refused ==>
      (t in Registered(config, types, refused) <==> t in config) &&
      (t in config ==> Registered(config, types, refused)[t] == config[t])
    ensures t in types && Accepted(types, refused) ==>
      t in Registered(config, types, refused) && Registered(config, types, refused)[t]
    decreases |types|
  {
    if types != [] && types[0] !in refused {
      RegisteredEffect(config[types[0] := true], types[1..], refused, t);
      if t in types && t != types[0] {
        assert t in types[1..];
      }
    }
  }
}
