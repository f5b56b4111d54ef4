/** The three-level device drop-down: `deviceHierarchy`, built from the
    catalogue by the `reduce` of `loadInitialData`
    (utili_project_v0/static/js/api.js), and the lookups the drop-down
    handlers make in it. A JavaScript object keeps its keys in insertion
    order, so each level is a list of named groups. */
module Hierarchy {
  import opened Common

  /** The first level key of a device: `dev.bmeName || 'Unknown'`. */
  function BmeKey(d: Device): (k: string)
    ensures k != ""
    ensures d.bmeName != "" ==> k == d.bmeName
  {
    OrDefault(d.bmeName, "Unknown")
  }

  /** The second level key: `${dev.brand || 'N/A'} | ${dev.model || 'N/A'}`. */
  function BrandModelKey(d: Device): (k: string)
    ensures var brand := OrDefault(d.brand, "N/A");
      && brand != "" && |k| > |brand| + 3
      && k[..|brand|] == brand && k[|brand|..|brand| + 3] == " | "
      && k[|brand| + 3..] == OrDefault(d.model, "N/A") != ""
  {
    OrDefault(d.brand, "N/A") + " | " + OrDefault(d.model, "N/A")
  }

  /** An optional string used as an object key: null becomes "null". */
  function JsKey(o: Option<string>): string {
    match o
    case None => "null"
    case Some(s) => s
  }

  // ---------------------------------------------------------------------
  // Lookups

  /** `hierarchy[bme]`, or None when the key is missing. */
  function ModelsAt(h: seq<BmeGroup>, bme: string): (r: Option<seq<ModelGroup>>)
    ensures r.Some? <==> exists k :: 0 <= k < |h| && h[k].bmeName == bme
  {
    if h == [] then None
    else if h[0].bmeName == bme then Some(h[0].models)
    else
      var r := ModelsAt(h[1..], bme);
      assert forall k :: 1 <= k < |h| ==> h[k] == h[1..][k - 1];
      assert r.Some? ==> exists k :: 0 <= k < |h| - 1 && h[1..][k].bmeName == bme;
      r
  }

  /** `models[brandModel]`, or None when the key is missing. */
  function TitlesIn(ms: seq<ModelGroup>, bm: string): Option<seq<string>> {
    if ms == [] then None
    else if ms[0].brandModel == bm then Some(ms[0].aeTitles)
    else TitlesIn(ms[1..], bm)
  }

  /** `Object.keys(models)`: the brand/model names in insertion order. */
  function ModelNames(ms: seq<ModelGroup>): (r: seq<string>)
    ensures |r| == |ms|
    ensures forall bm :: bm in r <==> TitlesIn(ms, bm).Some?
  {
    if ms == [] then [] else [ms[0].brandModel] + ModelNames(ms[1..])
  }

  /** `Object.keys(hierarchy)`: the BME names in insertion order. */
  function BmeNames(h: seq<BmeGroup>): (r: seq<string>)
    ensures |r| == |h|
    ensures forall b :: b in r <==> ModelsAt(h, b).Some?
  {
    if h == [] then [] else [h[0].bmeName] + BmeNames(h[1..])
  }

  /** Object keys are unique: no BME name twice, and no brand/model twice
      under one BME. */
  predicate KeysUnique(h: seq<BmeGroup>) {
    Distinct(BmeNames(h)) && forall k :: 0 <= k < |h| ==> Distinct(ModelNames(h[k].models))
  }

  /** `hierarchy[bme]?.[brandModel]` */
  function TitlesAt(h: seq<BmeGroup>, bme: string, bm: string): Option<seq<string>> {
    match ModelsAt(h, bme)
    case None => None
    case Some(ms) => TitlesIn(ms, bm)
  }

  /** The titles filed under a pair of keys, empty when there is no such list. */
  function TitlesList(h: seq<BmeGroup>, bme: string, bm: string): seq<string> {
    TitlesAt(h, bme, bm).GetOr([])
  }

  // ---------------------------------------------------------------------
  // Building

  /** `if (!acc[bme][brandModel]) acc[bme][brandModel] = []; acc[bme][brandModel].push(ae)` */
  function AddToModels(ms: seq<ModelGroup>, bm: string, ae: string): seq<ModelGroup> {
    if ms == [] then [ModelGroup(bm, [ae])]
    else if ms[0].brandModel == bm then [ModelGroup(bm, ms[0].aeTitles + [ae])] + ms[1..]
    else [ms[0]] + AddToModels(ms[1..], bm, ae)
  }

  /** One step of the reduce: file `ae` under `bme` and `bm`, creating the
      groups that are missing at the end of their level. */
  function AddTitle(h: seq<BmeGroup>, bme: string, bm: string, ae: string): seq<BmeGroup> {
    if h == [] then [BmeGroup(bme, [ModelGroup(bm, [ae])])]
    else if h[0].bmeName == bme then [BmeGroup(bme, AddToModels(h[0].models, bm, ae))] + h[1..]
    else [h[0]] + AddTitle(h[1..], bme, bm, ae)
  }

  /** The reduce over `Object.entries(bmeMap)`, given in that order. */
  function HierarchyOf(entries: seq<(string, Device)>): (h: seq<BmeGroup>)
    ensures KeysUnique(h)
  {
    if entries == [] then []
    else
      var last := entries[|entries| - 1];
      var prev := HierarchyOf(entries[..|entries| - 1]);
      AddTitleUnique(prev, BmeKey(last.1), BrandModelKey(last.1), last.0);
      AddTitle(prev, BmeKey(last.1), BrandModelKey(last.1), last.0)
  }

  /** Filing a title never repeats a brand/model name. */
  lemma {:induction false} AddToModelsUnique(ms: seq<ModelGroup>, bm: string, ae: string)
    requires Distinct(ModelNames(ms))
    ensures Distinct(ModelNames(AddToModels(ms, bm, ae)))
  {
    var r := AddToModels(ms, bm, ae);
    if ms == [] {
    } else if ms[0].brandModel == bm {
      assert r[1..] == ms[1..];
      assert ModelNames(r) == ModelNames(ms);
    } else {
      var x := ms[0].brandModel;
      var rest := AddToModels(ms[1..], bm, ae);
      assert r[1..] == rest;
      DistinctCons(x, ModelNames(ms[1..]));
      AddToModelsUnique(ms[1..], bm, ae);
      AddToModelsLookup(ms[1..], bm, ae, x);
      DistinctCons(x, ModelNames(rest));
    }
  }

  /** Filing a title never repeats a BME name, nor a brand/model name under
      one BME. */
  lemma {:induction false} AddTitleUnique(h: seq<BmeGroup>, bme: string, bm: string, ae: string)
    requires KeysUnique(h)
    ensures KeysUnique(AddTitle(h, bme, bm, ae))
  {
    var r := AddTitle(h, bme, bm, ae);
    if h == [] {
    } else if h[0].bmeName == bme {
      assert r[1..] == h[1..];
      assert BmeNames(r) == BmeNames(h);
      AddToModelsUnique(h[0].models, bm, ae);
    } else {
      var x := h[0].bmeName;
      var rest := AddTitle(h[1..], bme, bm, ae);
      assert r[1..] == rest;
      DistinctCons(x, BmeNames(h[1..]));
      assert forall k :: 1 <= k < |h| ==> h[k] == h[1..][k - 1];
      AddTitleUnique(h[1..], bme, bm, ae);
      AddTitleModels(h[1..], bme, bm, ae, x);
      DistinctCons(x, BmeNames(rest));
      assert forall k :: 1 <= k < |r| ==> r[k] == rest[k - 1];
    }
  }

  lemma {:induction false} AddToModelsLookup(ms: seq<ModelGroup>, bm: string, ae: string, x: string)
    ensures TitlesIn(AddToModels(ms, bm, ae), x) ==
      if x == bm then Some(TitlesIn(ms, bm).GetOr([]) + [ae]) else TitlesIn(ms, x)
  {
    if ms == [] {
      assert [ModelGroup(bm, [ae])][1..] == [];
      assert TitlesIn(ms, bm).GetOr([]) + [ae] == [ae];
    } else {
      if ms[0].brandModel == bm {
        var rest := ms[1..];
        assert ([ModelGroup(bm, ms[0].aeTitles + [ae])] + rest)[1..] == rest;
      } else {
        AddToModelsLookup(ms[1..], bm, ae, x);
        var rest := AddToModels(ms[1..], bm, ae);
        assert ([ms[0]] + rest)[1..] == rest;
      }
    }
  }

  lemma {:induction false} AddTitleModels(h: seq<BmeGroup>, bme: string, bm: string, ae: string, b: string)
    ensures ModelsAt(AddTitle(h, bme, bm, ae), b) ==
      if b == bme then Some(AddToModels(ModelsAt(h, bme).GetOr([]), bm, ae)) else ModelsAt(h, b)
  {
    if h != [] && h[0].bmeName != bme {
      AddTitleModels(h[1..], bme, bm, ae, b);
    }
  }

  /** Filing a title appends it to its own list and leaves every other list as it was. */
  lemma AddTitleLookup(h: seq<BmeGroup>, bme: string, bm: string, ae: string, b: string, m: string)
    ensures TitlesList(AddTitle(h, bme, bm, ae), b, m) ==
      if b == bme && m == bm then TitlesList(h, b, m) + [ae] else TitlesList(h, b, m)
  {
    AddTitleModels(h, bme, bm, ae, b);
    if b == bme {
      AddToModelsLookup(ModelsAt(h, bme).GetOr([]), bm, ae, m);
    }
  }

  /** Entry `i` is the device `ae`, filed under `b` and `m`. */
  ghost predicate FiledAt(entries: seq<(string, Device)>, i: int, ae: string, b: string, m: string) {
    0 <= i < |entries| && entries[i].0 == ae && BmeKey(entries[i].1) == b && BrandModelKey(entries[i].1) == m
  }

  /** A title is in the list under `b` and `m` exactly when an entry with
      that title has those keys. */
  lemma {:induction false} HierarchyContents(entries: seq<(string, Device)>, ae: string, b: string, m: string)
    ensures ae in TitlesList(HierarchyOf(entries), b, m) <==> exists i :: FiledAt(entries, i, ae, b, m)
  {
    if entries != [] {
      var n := |entries| - 1;
      var last := entries[n];
      HierarchyContents(entries[..n], ae, b, m);
      AddTitleLookup(HierarchyOf(entries[..n]), BmeKey(last.1), BrandModelKey(last.1), last.0, b, m);
      FiledAtSplit(entries, entries[..n], ae, b, m);
    } else {
      assert TitlesList([], b, m) == [];
    }
  }

  lemma FiledAtSplit(entries: seq<(string, Device)>, prefix: seq<(string, Device)>, ae: string, b: string, m: string)
    requires entries != [] && prefix == entries[..|entries| - 1]
    ensures (exists i :: FiledAt(entries, i, ae, b, m)) <==>
      (exists i :: FiledAt(prefix, i, ae, b, m)) || FiledAt(entries, |entries| - 1, ae, b, m)
  {
    var n := |entries| - 1;
    if exists i :: FiledAt(entries, i, ae, b, m) {
      var i :| FiledAt(entries, i, ae, b, m);
      if i < n {
        assert FiledAt(entries[..n], i, ae, b, m);
      }
    }
    if exists i :: FiledAt(entries[..n], i, ae, b, m) {
      var i :| FiledAt(entries[..n], i, ae, b, m);
      assert FiledAt(entries, i, ae, b, m);
    }
  }

  /** `entries` lists `bmeMap` once each, as `Object.entries` does. */
  ghost predicate EntriesOf(entries: seq<(string, Device)>, bmeMap: map<string, Device>) {
    && (forall i, j :: 0 <= i < j < |entries| ==> entries[i].0 != entries[j].0)
    && (forall i :: 0 <= i < |entries| ==> entries[i].0 in bmeMap && bmeMap[entries[i].0] == entries[i].1)
    && (forall ae :: ae in bmeMap ==> exists i :: 0 <= i < |entries| && entries[i].0 == ae)
  }

  /** Every device of the catalogue is in exactly one list of the hierarchy,
      the one under its own BME and brand/model keys, and no list holds
      anything else. */
  lemma ExactlyOneList(entries: seq<(string, Device)>, bmeMap: map<string, Device>, ae: string, b: string, m: string)
    requires EntriesOf(entries, bmeMap)
    ensures ae in TitlesList(HierarchyOf(entries), b, m) <==>
      ae in bmeMap && b == BmeKey(bmeMap[ae]) && m == BrandModelKey(bmeMap[ae])
  {
    HierarchyContents(entries, ae, b, m);
    if ae in bmeMap && b == BmeKey(bmeMap[ae]) && m == BrandModelKey(bmeMap[ae]) {
      var i :| 0 <= i < |entries| && entries[i].0 == ae;
      assert FiledAt(entries, i, ae, b, m);
    }
  }
}
