/** The LIMS client: flattening of entities, base-URL normalisation, the
    lineage trace from a run's inputs back to the original content records,
    the deduplicated run details and the selection of queued runs.

    The REST layer is replaced by a store (Lims) that answers each query the
    client makes; a key missing from one of its maps is a request that raised
    (or, for content, returned no entity). */
module Slims {
  import opened Values
  import opened Text
  import Sorting

  // ---------------------------------------------------------------------
  // Entities and their flat form

  /** One entry of an entity's 'columns' list; value and display are Null when absent or null. */
  datatype Column = Column(name: string, value: Value, display: Value)

  /** A LIMS entity as the REST API returns it. */
  datatype Entity = Entity(pk: Value, columns: seq<Column>)

  /** Whether flattening column c assigns key k. */
  predicate Writes(c: Column, k: string) {
    c.name == k || (c.display != Null && c.name + "_display" == k)
  }

  /** The value column c assigns to a key it writes. */
  function Written(c: Column, k: string): Value {
    if c.name == k then c.value else c.display
  }

  function WriteColumn(flat: Record, c: Column): Record {
    var f := flat[c.name := c.value];
    if c.display != Null then f[c.name + "_display" := c.display] else f
  }

  function FlattenFrom(flat: Record, cols: seq<Column>): Record
    decreases |cols|
  {
    if cols == [] then flat else FlattenFrom(WriteColumn(flat, cols[0]), cols[1..])
  }

  /** The flat dictionary of an entity: its pk, then each column's value and display value. */
  function Flatten(e: Entity): Record {
    FlattenFrom(map["pk" := e.pk], e.columns)
  }

  method FlattenEntity(e: Entity) returns (flat: Record)
    ensures flat == Flatten(e)
  {
    flat := map["pk" := e.pk];
    for i := 0 to |e.columns|
      invariant FlattenFrom(flat, e.columns[i..]) == Flatten(e)
    {
      var col := e.columns[i];
      assert e.columns[i..] == [col] + e.columns[i + 1..];
      flat := flat[col.name := col.value];
      if col.display != Null {
        flat := flat[col.name + "_display" := col.display];
      }
    }
  }

  lemma {:induction false} FlattenFromKeys(flat: Record, cols: seq<Column>, k: string)
    ensures k in FlattenFrom(flat, cols) <==> k in flat || exists i :: 0 <= i < |cols| && Writes(cols[i], k)
    decreases |cols|
  {
    if cols != [] {
      var w := WriteColumn(flat, cols[0]);
      FlattenFromKeys(w, cols[1..], k);
      assert k in w <==> k in flat || Writes(cols[0], k);
      if exists i :: 0 <= i < |cols| && Writes(cols[i], k) {
        var i :| 0 <= i < |cols| && Writes(cols[i], k);
        if i > 0 { assert Writes(cols[1..][i - 1], k); }
      }
      if exists i :: 0 <= i < |cols[1..]| && Writes(cols[1..][i], k) {
        var i :| 0 <= i < |cols[1..]| && Writes(cols[1..][i], k);
        assert Writes(cols[i + 1], k);
      }
    }
  }

  lemma {:induction false} FlattenFromUntouched(flat: Record, cols: seq<Column>, k: string)
    requires k in flat && forall i :: 0 <= i < |cols| ==> !Writes(cols[i], k)
    ensures k in FlattenFrom(flat, cols) && FlattenFrom(flat, cols)[k] == flat[k]
    decreases |cols|
  {
    if cols != [] {
      var w := WriteColumn(flat, cols[0]);
      assert !Writes(cols[0], k);
      assert forall j :: 0 <= j < |cols[1..]| ==> !Writes(cols[1..][j], k) by {
        forall j | 0 <= j < |cols[1..]| ensures !Writes(cols[1..][j], k) {
          assert cols[1..][j] == cols[j + 1];
        }
      }
      FlattenFromUntouched(w, cols[1..], k);
    }
  }

  lemma {:induction false} FlattenFromLastWrite(flat: Record, cols: seq<Column>, k: string, i: nat)
    requires i < |cols| && Writes(cols[i], k) && forall j :: i < j < |cols| ==> !Writes(cols[j], k)
    ensures k in FlattenFrom(flat, cols) && FlattenFrom(flat, cols)[k] == Written(cols[i], k)
    decreases |cols|
  {
    var w := WriteColumn(flat, cols[0]);
    assert forall j :: i <= j < |cols[1..]| ==> !Writes(cols[1..][j], k) by {
      forall j | i <= j < |cols[1..]| ensures !Writes(cols[1..][j], k) {
        assert cols[1..][j] == cols[j + 1];
      }
    }
    if i == 0 {
      var c := cols[0];
      assert |c.name + "_display"| != |c.name|;
      assert k in w && w[k] == Written(c, k);
      FlattenFromUntouched(w, cols[1..], k);
    } else {
      assert cols[1..][i - 1] == cols[i];
      FlattenFromLastWrite(w, cols[1..], k, i - 1);
    }
  }

  /** Flattening keeps "pk" and the keys the columns write, and the last column that
      writes a key decides its value; "pk" keeps the entity's pk unless a column writes it. */
  lemma FlattenLastWriteWins(e: Entity, k: string)
    ensures k in Flatten(e) <==> k == "pk" || exists i :: 0 <= i < |e.columns| && Writes(e.columns[i], k)
    ensures k == "pk" && (forall i :: 0 <= i < |e.columns| ==> !Writes(e.columns[i], k)) ==> Flatten(e)[k] == e.pk
    ensures forall i :: 0 <= i < |e.columns| && Writes(e.columns[i], k) && (forall j :: i < j < |e.columns| ==> !Writes(e.columns[j], k)) ==>
              Flatten(e)[k] == Written(e.columns[i], k)
  {
    var init := map["pk" := e.pk];
    FlattenFromKeys(init, e.columns, k);
    if k == "pk" && (forall i :: 0 <= i < |e.columns| ==> !Writes(e.columns[i], k)) {
      FlattenFromUntouched(init, e.columns, k);
    }
    forall i | 0 <= i < |e.columns| && Writes(e.columns[i], k) && (forall j :: i < j < |e.columns| ==> !Writes(e.columns[j], k))
      ensures Flatten(e)[k] == Written(e.columns[i], k)
    {
      FlattenFromLastWrite(init, e.columns, k, i);
    }
  }

  lemma FlattenHasPk(e: Entity)
    ensures "pk" in Flatten(e)
  {
    FlattenFromKeys(map["pk" := e.pk], e.columns, "pk");
  }

  // ---------------------------------------------------------------------
  // Base URL

  /** The client's base URL: trailing slashes dropped, then one trailing "/rest" dropped. */
  function NormalizeUrl(url: string): (r: string)
    ensures StartsWith(url, r)
  {
    var u := RStripChar(url, '/');
    if EndsWith(u, "/rest") then u[..|u| - 5] else u
  }

  /** The URL a request for an endpoint goes to. */
  function EndpointUrl(base: string, endpoint: string): string {
    base + "/rest/" + endpoint
  }

  predicate AllSlashes(s: string) { forall i :: 0 <= i < |s| ==> s[i] == '/' }

  lemma {:induction false} RStripSlashes(s: string, slashes: string)
    requires AllSlashes(slashes)
    ensures RStripChar(s + slashes, '/') == RStripChar(s, '/')
    decreases |slashes|
  {
    if slashes != [] {
      var t := s + slashes;
      assert t[..|t| - 1] == s + slashes[..|slashes| - 1];
      RStripSlashes(s, slashes[..|slashes| - 1]);
    } else {
      assert s + slashes == s;
    }
  }

  /** A URL given with the REST suffix, with or without trailing slashes, yields the bare
      base, so requests go to base/rest/endpoint and never to base/rest/rest/endpoint. */
  lemma NormalizeUrlDropsRest(base: string, slashes: string, endpoint: string)
    requires AllSlashes(slashes)
    ensures NormalizeUrl(base + "/rest" + slashes) == base
    ensures EndpointUrl(NormalizeUrl(base + "/rest" + slashes), endpoint) == base + "/rest/" + endpoint
  {
    RStripSlashes(base + "/rest", slashes);
    var u := base + "/rest";
    assert u[|u| - 1] == 't';
    assert RStripChar(u, '/') == u;
    assert u[|u| - 5..] == "/rest";
    assert u[..|u| - 5] == base;
  }

  /** A URL without the suffix only loses its trailing slashes. */
  lemma NormalizeUrlKeepsPlain(url: string, slashes: string)
    requires AllSlashes(slashes)
    requires url == [] || url[|url| - 1] != '/'
    requires !EndsWith(url, "/rest")
    ensures NormalizeUrl(url + slashes) == url
  {
    RStripSlashes(url, slashes);
    assert RStripChar(url, '/') == url;
  }

  // ---------------------------------------------------------------------
  // The record store

  /** What the LIMS answers. Each map holds the answers of one kind of request;
      a key absent from it is a request that raised. */
  datatype Lims = Lims(
    content: map<Value, Entity>,            // Content/{pk}: its first entity (absent also when there is none)
    relations: map<Value, seq<Entity>>,     // ContentRelation with corl_fk_to == pk
    runs: map<Value, Entity>,               // ExperimentRun/{pk}: its first entity (absent when there is none)
    steps: map<Value, seq<Entity>>,         // ExperimentRunStep with xprs_fk_experimentRun == pk
    inputs: map<Value, seq<Entity>>,        // eln/content/input/{step pk}
    templates: Option<seq<Entity>>,         // ExperimentTemplate named "ONT Sequencing"
    openRuns: map<seq<Value>, seq<Entity>>  // ExperimentRun neither completed nor cancelled, for these template pks
  )

  // ---------------------------------------------------------------------
  // Lineage trace

  const MaxDepth: nat := 5

  /** Content types that count as original content: the trace stops there. */
  const TerminalTypes: set<string> := {"DNA", "Pure strain", "Strain aliquot", "DNA samples"}

  /** Content types returned as their own origin when no ingredient is found. */
  const FallbackTypes: set<string> := {"DNA Library", "Library pool"}

  const BarcodeKeys: set<string> := {"barcode_i7", "barcode_adapter"}

  /** The record field a DNA Library's barcode metadata key is captured from. */
  function SourceField(k: string): string {
    if k == "barcode_i7" then "cntn_cf_fk_barcode_i7_display" else "cntn_cf_barcodeAdapterSet"
  }

  function TypeOf(c: Record): Value { GetOr(c, "cntp_name", Null) }

  predicate IsTerminal(c: Record) { TypeOf(c).Str? && TypeOf(c).s in TerminalTypes }

  predicate IsFallback(c: Record) { TypeOf(c).Str? && TypeOf(c).s in FallbackTypes }

  /** Whether visiting content c sets metadata key k (a DNA Library with a truthy barcode field). */
  predicate SetsKey(c: Record, k: string) {
    && TypeOf(c) == Str("DNA Library")
    && k in BarcodeKeys
    && Truthy(GetOr(c, SourceField(k), Null))
  }

  /** The metadata after visiting content c: a DNA Library stores its truthy barcode fields. */
  function Capture(c: Record, meta: Record): Record {
    var m1 := if SetsKey(c, "barcode_i7") then meta["barcode_i7" := GetOr(c, SourceField("barcode_i7"), Null)] else meta;
    if SetsKey(c, "barcode_adapter") then m1["barcode_adapter" := GetOr(c, SourceField("barcode_adapter"), Null)] else m1
  }

  /** Visiting content adds exactly the barcode fields it sets, with the library's values,
      and leaves every other key as it was. */
  lemma CaptureSpec(c: Record, meta: Record)
    ensures forall k :: k in Capture(c, meta) <==> k in meta || SetsKey(c, k)
    ensures forall k :: k in meta && !SetsKey(c, k) ==> Capture(c, meta)[k] == meta[k]
    ensures forall k :: SetsKey(c, k) ==> Capture(c, meta)[k] == GetOr(c, SourceField(k), Null)
  {
  }

  /** The ancestor a relation points at (corl_fk_from). */
  function FromPk(rel: Entity): Value { GetOr(Flatten(rel), "corl_fk_from", Null) }

  /** The original content records behind content pk, each with the collected metadata
      merged over it (metadata keys win). The depth is the fuel: past MaxDepth the branch
      is dropped, which bounds the trace on cyclic relation graphs. */
  function Trace(lims: Lims, pk: Value, depth: nat, meta: Record): seq<Record>
    decreases MaxDepth + 1 - depth, 1, 0
  {
    if depth > MaxDepth then []
    else if pk !in lims.content then []
    else
      var c := Flatten(lims.content[pk]);
      var m := Capture(c, meta);
      if IsTerminal(c) then [c + m]
      else if pk !in lims.relations then [c + m]
      else
        var ingredients := TraceAll(lims, lims.relations[pk], depth + 1, m);
        if ingredients == [] && IsFallback(c) then [c + m] else ingredients
  }

  /** The trace's case split: past the depth bound or for missing content nothing is
      found; terminal content, and content whose relations cannot be fetched, is its own
      origin; a library or pool with no traceable ingredient is its own origin too; any
      other content yields the ingredients of its relations, [] when there are none. */
  lemma TraceCases(lims: Lims, pk: Value, depth: nat, meta: Record)
    ensures depth > MaxDepth ==> Trace(lims, pk, depth, meta) == []
    ensures pk !in lims.content ==> Trace(lims, pk, depth, meta) == []
    ensures depth <= MaxDepth && pk in lims.content && IsTerminal(Flatten(lims.content[pk])) ==>
              Trace(lims, pk, depth, meta) == [Flatten(lims.content[pk]) + meta]
    ensures depth <= MaxDepth && pk in lims.content && pk !in lims.relations ==>
              Trace(lims, pk, depth, meta) == [Flatten(lims.content[pk]) + Capture(Flatten(lims.content[pk]), meta)]
    ensures depth <= MaxDepth && pk in lims.content && IsFallback(Flatten(lims.content[pk]))
            && pk in lims.relations && TraceAll(lims, lims.relations[pk], depth + 1, Capture(Flatten(lims.content[pk]), meta)) == [] ==>
              Trace(lims, pk, depth, meta) == [Flatten(lims.content[pk]) + Capture(Flatten(lims.content[pk]), meta)]
    ensures depth <= MaxDepth && pk in lims.content && pk in lims.relations && !IsTerminal(Flatten(lims.content[pk]))
            && (!IsFallback(Flatten(lims.content[pk]))
                || TraceAll(lims, lims.relations[pk], depth + 1, Capture(Flatten(lims.content[pk]), meta)) != []) ==>
              Trace(lims, pk, depth, meta) == TraceAll(lims, lims.relations[pk], depth + 1, Capture(Flatten(lims.content[pk]), meta))
  {
    if depth <= MaxDepth && pk in lims.content {
      var c := Flatten(lims.content[pk]);
      if IsTerminal(c) {
        assert !SetsKey(c, "barcode_i7") && !SetsKey(c, "barcode_adapter");
      }
    }
  }

  /** The ingredients of every relation in turn, each traced with the same metadata. */
  function TraceAll(lims: Lims, rels: seq<Entity>, depth: nat, meta: Record): seq<Record>
    decreases if depth <= MaxDepth + 1 then MaxDepth + 2 - depth else 0, 0, |rels|
  {
    if rels == [] then []
    else Branch(lims, rels[0], depth, meta) + TraceAll(lims, rels[1..], depth, meta)
  }

  /** One relation's share: nothing when its corl_fk_from is falsy. */
  function Branch(lims: Lims, rel: Entity, depth: nat, meta: Record): seq<Record>
    decreases if depth <= MaxDepth + 1 then MaxDepth + 2 - depth else 0, 0, 0
  {
    if Truthy(FromPk(rel)) then Trace(lims, FromPk(rel), depth, meta) else []
  }

  /** A relation with a falsy corl_fk_from contributes nothing; otherwise its ancestor is
      traced one level deeper with the metadata handed to it. */
  lemma BranchCases(lims: Lims, rel: Entity, depth: nat, meta: Record)
    ensures !Truthy(FromPk(rel)) ==> Branch(lims, rel, depth, meta) == []
    ensures Truthy(FromPk(rel)) ==> Branch(lims, rel, depth, meta) == Trace(lims, FromPk(rel), depth, meta)
  {
  }

  lemma {:induction false} TraceAllAppend(lims: Lims, a: seq<Entity>, b: seq<Entity>, depth: nat, meta: Record)
    ensures TraceAll(lims, a + b, depth, meta) == TraceAll(lims, a, depth, meta) + TraceAll(lims, b, depth, meta)
  {
    if a != [] {
      assert (a + b)[1..] == a[1..] + b;
      TraceAllAppend(lims, a[1..], b, depth, meta);
    } else {
      assert a + b == b;
    }
  }

  /** Whether some content visited while tracing pk sets metadata key k. */
  ghost predicate Overrides(lims: Lims, pk: Value, depth: nat, k: string)
    decreases MaxDepth + 1 - depth, 1, 0
  {
    && depth <= MaxDepth
    && pk in lims.content
    && var c := Flatten(lims.content[pk]);
       (SetsKey(c, k) || (!IsTerminal(c) && pk in lims.relations && OverridesAny(lims, lims.relations[pk], depth + 1, k)))
  }

  ghost predicate OverridesAny(lims: Lims, rels: seq<Entity>, depth: nat, k: string)
    decreases if depth <= MaxDepth + 1 then MaxDepth + 2 - depth else 0, 0, |rels|
  {
    rels != [] && (BranchOverrides(lims, rels[0], depth, k) || OverridesAny(lims, rels[1..], depth, k))
  }

  ghost predicate BranchOverrides(lims: Lims, rel: Entity, depth: nat, k: string)
    decreases if depth <= MaxDepth + 1 then MaxDepth + 2 - depth else 0, 0, 0
  {
    Truthy(FromPk(rel)) && Overrides(lims, FromPk(rel), depth, k)
  }

  /** Metadata reaches every record of the trace: a key the caller passed in keeps its
      value unless a DNA Library visited below sets it again. */
  lemma {:induction false} TraceKeepsMeta(lims: Lims, pk: Value, depth: nat, meta: Record, k: string)
    requires k in meta && !Overrides(lims, pk, depth, k)
    ensures forall x :: x in Trace(lims, pk, depth, meta) ==> k in x && x[k] == meta[k]
    decreases MaxDepth + 1 - depth, 1, 0
  {
    if depth <= MaxDepth && pk in lims.content {
      var c := Flatten(lims.content[pk]);
      var m := Capture(c, meta);
      CaptureSpec(c, meta);
      if !IsTerminal(c) && pk in lims.relations {
        TraceAllKeepsMeta(lims, lims.relations[pk], depth + 1, m, k);
      }
    }
  }

  lemma {:induction false} TraceAllKeepsMeta(lims: Lims, rels: seq<Entity>, depth: nat, meta: Record, k: string)
    requires k in meta && !OverridesAny(lims, rels, depth, k)
    ensures forall x :: x in TraceAll(lims, rels, depth, meta) ==> k in x && x[k] == meta[k]
    decreases if depth <= MaxDepth + 1 then MaxDepth + 2 - depth else 0, 0, |rels|
  {
    if rels != [] {
      if Truthy(FromPk(rels[0])) {
        TraceKeepsMeta(lims, FromPk(rels[0]), depth, meta, k);
      }
      TraceAllKeepsMeta(lims, rels[1..], depth, meta, k);
    }
  }

  /** Branch isolation: among sibling relations, the records of one sibling's branch are
      exactly what that branch traces on its own, and they carry the inherited value of k
      unless that branch itself sets k, whatever the other siblings capture. */
  lemma SiblingIsolation(lims: Lims, before: seq<Entity>, rel: Entity, after: seq<Entity>, depth: nat, meta: Record, k: string)
    requires k in meta && !BranchOverrides(lims, rel, depth, k)
    ensures TraceAll(lims, before + [rel] + after, depth, meta)
            == TraceAll(lims, before, depth, meta) + Branch(lims, rel, depth, meta) + TraceAll(lims, after, depth, meta)
    ensures forall x :: x in Branch(lims, rel, depth, meta) ==> k in x && x[k] == meta[k]
  {
    TraceAllAppend(lims, before + [rel], after, depth, meta);
    TraceAllAppend(lims, before, [rel], depth, meta);
    assert [rel][1..] == [];
    if Truthy(FromPk(rel)) {
      TraceKeepsMeta(lims, FromPk(rel), depth, meta, k);
    }
  }

  /** A DNA Library with a truthy barcode field (the i7 barcode or the adapter set) stamps
      it on every record traced through it, unless a deeper DNA Library on the way sets
      the same key again (that one's value then wins). */
  lemma LibraryStampsBarcode(lims: Lims, pk: Value, depth: nat, meta: Record, k: string)
    requires k in BarcodeKeys
    requires depth <= MaxDepth && pk in lims.content
    requires SetsKey(Flatten(lims.content[pk]), k)
    requires pk in lims.relations ==> !OverridesAny(lims, lims.relations[pk], depth + 1, k)
    ensures forall x :: x in Trace(lims, pk, depth, meta) ==>
              k in x && x[k] == GetOr(Flatten(lims.content[pk]), SourceField(k), Null)
  {
    var c := Flatten(lims.content[pk]);
    var m := Capture(c, meta);
    CaptureSpec(c, meta);
    if pk in lims.relations {
      TraceAllKeepsMeta(lims, lims.relations[pk], depth + 1, m, k);
    }
  }

  /** Whether content `to` is at most n relation edges upstream of content `from`. */
  ghost predicate Reach(lims: Lims, from: Value, to: Value, n: nat)
    decreases n
  {
    from == to
    || (n > 0 && from in lims.relations
        && exists rel :: rel in lims.relations[from] && Truthy(FromPk(rel)) && Reach(lims, FromPk(rel), to, n - 1))
  }

  /** Every traced record is the visited content with the metadata merged over it, or an
      ingredient of its relations when the content is not terminal. */
  lemma TraceShape(lims: Lims, pk: Value, depth: nat, meta: Record)
    ensures forall x :: x in Trace(lims, pk, depth, meta) ==>
              && depth <= MaxDepth && pk in lims.content
              && (|| x == Flatten(lims.content[pk]) + Capture(Flatten(lims.content[pk]), meta)
                  || (&& !IsTerminal(Flatten(lims.content[pk])) && pk in lims.relations
                      && x in TraceAll(lims, lims.relations[pk], depth + 1, Capture(Flatten(lims.content[pk]), meta))))
  {
  }

  /** Every traced record is the content of a record at most MaxDepth - depth edges upstream
      of pk: the trace never reports content further than five edges from a run input. */
  lemma {:induction false} TraceWithinReach(lims: Lims, pk: Value, depth: nat, meta: Record)
    requires "pk" !in meta
    ensures forall x :: x in Trace(lims, pk, depth, meta) ==>
              && depth <= MaxDepth && "pk" in x
              && exists q :: q in lims.content && Reach(lims, pk, q, MaxDepth - depth) && x["pk"] == PkOf(Flatten(lims.content[q]))
    decreases MaxDepth + 1 - depth, 1, 0
  {
    TraceShape(lims, pk, depth, meta);
    if depth <= MaxDepth && pk in lims.content {
      var c := Flatten(lims.content[pk]);
      var m := Capture(c, meta);
      FlattenHasPk(lims.content[pk]);
      CaptureSpec(c, meta);
      assert "pk" !in m;
      assert Reach(lims, pk, pk, MaxDepth - depth);
      if !IsTerminal(c) && pk in lims.relations {
        var rels := lims.relations[pk];
        TraceAllWithinReach(lims, rels, depth + 1, m);
        forall x | x in TraceAll(lims, rels, depth + 1, m)
          ensures exists q :: q in lims.content && Reach(lims, pk, q, MaxDepth - depth) && x["pk"] == PkOf(Flatten(lims.content[q]))
        {
          var rel, q :| rel in rels && Truthy(FromPk(rel)) && q in lims.content
                        && Reach(lims, FromPk(rel), q, MaxDepth - (depth + 1)) && x["pk"] == PkOf(Flatten(lims.content[q]));
          assert Reach(lims, pk, q, MaxDepth - depth);
        }
      }
    }
  }

  lemma {:induction false} TraceAllWithinReach(lims: Lims, rels: seq<Entity>, depth: nat, meta: Record)
    requires "pk" !in meta
    ensures forall x :: x in TraceAll(lims, rels, depth, meta) ==>
              && depth <= MaxDepth && "pk" in x
              && exists rel, q :: rel in rels && Truthy(FromPk(rel)) && q in lims.content
                   && Reach(lims, FromPk(rel), q, MaxDepth - depth) && x["pk"] == PkOf(Flatten(lims.content[q]))
    decreases if depth <= MaxDepth + 1 then MaxDepth + 2 - depth else 0, 0, |rels|
  {
    if rels != [] {
      if Truthy(FromPk(rels[0])) {
        TraceWithinReach(lims, FromPk(rels[0]), depth, meta);
      }
      TraceAllWithinReach(lims, rels[1..], depth, meta);
      forall x | x in TraceAll(lims, rels, depth, meta) && depth <= MaxDepth
        ensures exists rel, q :: rel in rels && Truthy(FromPk(rel)) && q in lims.content
                  && Reach(lims, FromPk(rel), q, MaxDepth - depth) && x["pk"] == PkOf(Flatten(lims.content[q]))
      {
        if x in Branch(lims, rels[0], depth, meta) {
          var q :| q in lims.content && Reach(lims, FromPk(rels[0]), q, MaxDepth - depth) && x["pk"] == PkOf(Flatten(lims.content[q]));
          assert rels[0] in rels;
        } else {
          assert x in TraceAll(lims, rels[1..], depth, meta);
          var rel, q :| rel in rels[1..] && Truthy(FromPk(rel)) && q in lims.content
                        && Reach(lims, FromPk(rel), q, MaxDepth - depth) && x["pk"] == PkOf(Flatten(lims.content[q]));
          assert rel in rels;
        }
      }
    }
  }

  // ---------------------------------------------------------------------
  // Run details: traced inputs, deduplicated by pk

  function PkOf(x: Record): Value { GetOr(x, "pk", Null) }

  /** The pks of a sequence of records. */
  function PkSet(xs: seq<Record>): set<Value> {
    if xs == [] then {} else PkSet(xs[..|xs| - 1]) + {PkOf(xs[|xs| - 1])}
  }

  lemma {:induction false} PkSetIndex(xs: seq<Record>, p: Value)
    ensures p in PkSet(xs) <==> exists i :: 0 <= i < |xs| && PkOf(xs[i]) == p
  {
    if xs != [] {
      var ys := xs[..|xs| - 1];
      PkSetIndex(ys, p);
      if exists i :: 0 <= i < |ys| && PkOf(ys[i]) == p {
        var i :| 0 <= i < |ys| && PkOf(ys[i]) == p;
        assert xs[i] == ys[i];
      }
      if exists i :: 0 <= i < |xs| && PkOf(xs[i]) == p {
        var i :| 0 <= i < |xs| && PkOf(xs[i]) == p;
        if i < |ys| { assert ys[i] == xs[i]; }
      }
    }
  }

  /** Keep the first record of each pk, in order. */
  function DedupByPk(xs: seq<Record>): seq<Record> {
    if xs == [] then []
    else
      var d := DedupByPk(xs[..|xs| - 1]);
      if PkOf(xs[|xs| - 1]) in PkSet(d) then d else d + [xs[|xs| - 1]]
  }

  /** The index of the first record with pk p (|xs| when there is none). */
  function FirstIndex(xs: seq<Record>, p: Value): (i: nat)
    ensures i <= |xs|
  {
    if xs == [] then 0 else if PkOf(xs[0]) == p then 0 else 1 + FirstIndex(xs[1..], p)
  }

  lemma {:induction false} FirstIndexFound(xs: seq<Record>, p: Value)
    ensures FirstIndex(xs, p) < |xs| <==> p in PkSet(xs)
    ensures FirstIndex(xs, p) < |xs| ==> PkOf(xs[FirstIndex(xs, p)]) == p
  {
    if xs != [] {
      FirstIndexFound(xs[1..], p);
      PkSetIndex(xs, p);
      PkSetIndex(xs[1..], p);
      if exists i :: 0 <= i < |xs| && PkOf(xs[i]) == p {
        var i :| 0 <= i < |xs| && PkOf(xs[i]) == p;
        if i > 0 { assert xs[1..][i - 1] == xs[i]; }
      }
      if exists i :: 0 <= i < |xs[1..]| && PkOf(xs[1..][i]) == p {
        var i :| 0 <= i < |xs[1..]| && PkOf(xs[1..][i]) == p;
        assert xs[i + 1] == xs[1..][i];
      }
    }
  }

  lemma {:induction false} FirstIndexAppend(xs: seq<Record>, y: Record, p: Value)
    ensures p in PkSet(xs) ==> FirstIndex(xs + [y], p) == FirstIndex(xs, p)
    ensures p !in PkSet(xs) && PkOf(y) == p ==> FirstIndex(xs + [y], p) == |xs|
  {
    FirstIndexFound(xs, p);
    if xs != [] {
      assert (xs + [y])[1..] == xs[1..] + [y];
      FirstIndexAppend(xs[1..], y, p);
      FirstIndexFound(xs[1..], p);
    }
  }

  lemma PkSetAppend(xs: seq<Record>, y: Record)
    ensures PkSet(xs + [y]) == PkSet(xs) + {PkOf(y)}
  {
    assert (xs + [y])[..|xs|] == xs;
  }

  /** Deduplication keeps exactly one record per pk: the pks of the result are pairwise
      distinct, every pk of the input is represented, each kept record is the first
      occurrence of its pk, and kept records stay in the order of those first occurrences. */
  lemma {:induction false} DedupByPkSpec(xs: seq<Record>)
    ensures var d := DedupByPk(xs);
      && (forall i, j :: 0 <= i < j < |d| ==> PkOf(d[i]) != PkOf(d[j]))
      && PkSet(d) == PkSet(xs)
      && (forall a :: 0 <= a < |d| ==> FirstIndex(xs, PkOf(d[a])) < |xs| && xs[FirstIndex(xs, PkOf(d[a]))] == d[a])
      && (forall a, b :: 0 <= a < b < |d| ==> FirstIndex(xs, PkOf(d[a])) < FirstIndex(xs, PkOf(d[b])))
  {
    if xs != [] {
      var ys := xs[..|xs| - 1];
      var y := xs[|xs| - 1];
      assert xs == ys + [y];
      DedupByPkSpec(ys);
      var d' := DedupByPk(ys);
      PkSetAppend(ys, y);
      forall p | p in PkSet(ys)
        ensures FirstIndex(xs, p) == FirstIndex(ys, p)
      {
        FirstIndexAppend(ys, y, p);
      }
      forall a | 0 <= a < |d'| ensures PkOf(d'[a]) in PkSet(ys) {
        PkSetIndex(d', PkOf(d'[a]));
      }
      if PkOf(y) !in PkSet(d') {
        var d := d' + [y];
        PkSetAppend(d', y);
        PkSetIndex(d', PkOf(y));
        FirstIndexAppend(ys, y, PkOf(y));
        assert d[|d'|] == y;
        forall a | 0 <= a < |d| ensures FirstIndex(xs, PkOf(d[a])) < |xs| && xs[FirstIndex(xs, PkOf(d[a]))] == d[a] {
          if a < |d'| {
            assert d[a] == d'[a];
          }
        }
      }
    }
  }

  /** The original samples behind one run input. */
  function InputTrace(lims: Lims, input: Entity): seq<Record> {
    Trace(lims, PkOf(Flatten(input)), 0, map[])
  }

  /** The records traced from one step's inputs, in order. */
  function InputsTraced(lims: Lims, inputs: seq<Entity>): seq<Record> {
    if inputs == [] then [] else InputTrace(lims, inputs[0]) + InputsTraced(lims, inputs[1..])
  }

  /** The records traced from all steps in order; a failed input request ends the walk. */
  function StepsTraced(lims: Lims, steps: seq<Entity>): seq<Record> {
    if steps == [] then []
    else if steps[0].pk !in lims.inputs then []
    else InputsTraced(lims, lims.inputs[steps[0].pk]) + StepsTraced(lims, steps[1..])
  }

  function RunTraced(lims: Lims, runPk: Value): seq<Record> {
    if runPk in lims.steps then StepsTraced(lims, lims.steps[runPk]) else []
  }

  datatype RunDetails = RunDetails(run: Record, inputs: seq<Record>)

  lemma DedupByPkStep(xs: seq<Record>, y: Record)
    ensures DedupByPk(xs + [y]) ==
              if PkOf(y) in PkSet(DedupByPk(xs)) then DedupByPk(xs) else DedupByPk(xs) + [y]
  {
    assert (xs + [y])[..|xs|] == xs;
  }

  lemma KeepUnseenStep(done: seq<Record>, ingredients: seq<Record>, k: nat, samples: seq<Record>)
    requires k < |ingredients| && samples == DedupByPk(done + ingredients[..k])
    ensures DedupByPk(done + ingredients[..k + 1]) ==
              if PkOf(ingredients[k]) in PkSet(samples) then samples else samples + [ingredients[k]]
    ensures PkSet(samples + [ingredients[k]]) == PkSet(samples) + {PkOf(ingredients[k])}
  {
    assert done + ingredients[..k + 1] == (done + ingredients[..k]) + [ingredients[k]];
    DedupByPkStep(done + ingredients[..k], ingredients[k]);
    PkSetAppend(samples, ingredients[k]);
  }

  /** Append each record whose pk has not been seen yet: one input's share of the
      deduplication, continuing where the earlier records left off. */
  method KeepUnseen(samples: seq<Record>, seen: set<Value>, ghost done: seq<Record>, ingredients: seq<Record>)
    returns (samples': seq<Record>, seen': set<Value>)
    requires samples == DedupByPk(done) && seen == PkSet(samples)
    ensures samples' == DedupByPk(done + ingredients) && seen' == PkSet(samples')
  {
    samples', seen' := samples, seen;
    assert done + ingredients[..0] == done;
    for k := 0 to |ingredients|
      invariant samples' == DedupByPk(done + ingredients[..k]) && seen' == PkSet(samples')
    {
      var ing := ingredients[k];
      KeepUnseenStep(done, ingredients, k, samples');
      if PkOf(ing) !in seen' {
        samples' := samples' + [ing];
        seen' := seen' + {PkOf(ing)};
      }
    }
    assert ingredients[..|ingredients|] == ingredients;
  }

  lemma InputsTracedStep(lims: Lims, inputs: seq<Entity>, j: nat)
    requires j < |inputs|
    ensures InputsTraced(lims, inputs[j..]) == InputTrace(lims, inputs[j]) + InputsTraced(lims, inputs[j + 1..])
  {
    assert inputs[j..][1..] == inputs[j + 1..];
  }

  /** Trace every input of one step in turn and merge the results into the samples. */
  lemma MergeInputsStep(lims: Lims, inputs: seq<Entity>, j: nat, acc: seq<Record>, all: seq<Record>)
    requires j < |inputs| && acc + InputsTraced(lims, inputs[j..]) == all
    ensures (acc + InputTrace(lims, inputs[j])) + InputsTraced(lims, inputs[j + 1..]) == all
  {
    InputsTracedStep(lims, inputs, j);
    assert acc + (InputTrace(lims, inputs[j]) + InputsTraced(lims, inputs[j + 1..]))
        == (acc + InputTrace(lims, inputs[j])) + InputsTraced(lims, inputs[j + 1..]);
  }

  /** Trace every input of one step in turn and merge the results into the samples. */
  method MergeInputs(lims: Lims, inputs: seq<Entity>, samples: seq<Record>, seen: set<Value>, ghost done: seq<Record>)
    returns (samples': seq<Record>, seen': set<Value>)
    requires samples == DedupByPk(done) && seen == PkSet(samples)
    ensures samples' == DedupByPk(done + InputsTraced(lims, inputs)) && seen' == PkSet(samples')
  {
    samples', seen' := samples, seen;
    ghost var acc := done;
    ghost var all := done + InputsTraced(lims, inputs);
    var j := 0;
    while j < |inputs|
      invariant 0 <= j <= |inputs|
      invariant acc + InputsTraced(lims, inputs[j..]) == all
      invariant samples' == DedupByPk(acc) && seen' == PkSet(samples')
    {
      var ingredients := InputTrace(lims, inputs[j]);
      MergeInputsStep(lims, inputs, j, acc, all);
      samples', seen' := KeepUnseen(samples', seen', acc, ingredients);
      acc := acc + ingredients;
      j := j + 1;
    }
    assert inputs[|inputs|..] == [];
    assert acc + [] == acc;
  }

  lemma StepsTracedStep(lims: Lims, steps: seq<Entity>, i: nat)
    requires i < |steps|
    ensures steps[i].pk !in lims.inputs ==> StepsTraced(lims, steps[i..]) == []
    ensures steps[i].pk in lims.inputs ==>
              StepsTraced(lims, steps[i..]) == InputsTraced(lims, lims.inputs[steps[i].pk]) + StepsTraced(lims, steps[i + 1..])
  {
    assert steps[i..][1..] == steps[i + 1..];
  }

  lemma RunStep(lims: Lims, steps: seq<Entity>, i: nat, done: seq<Record>, all: seq<Record>)
    requires i < |steps| && done + StepsTraced(lims, steps[i..]) == all
    ensures steps[i].pk !in lims.inputs ==> done == all
    ensures steps[i].pk in lims.inputs ==>
              (done + InputsTraced(lims, lims.inputs[steps[i].pk])) + StepsTraced(lims, steps[i + 1..]) == all
  {
    StepsTracedStep(lims, steps, i);
    if steps[i].pk in lims.inputs {
      var a := InputsTraced(lims, lims.inputs[steps[i].pk]);
      assert done + (a + StepsTraced(lims, steps[i + 1..])) == (done + a) + StepsTraced(lims, steps[i + 1..]);
    } else {
      assert done + [] == done;
    }
  }

  /** The run record and its original samples: everything traced from the inputs of every
      step, first occurrence of each pk kept. A run without a record raises (None). */
  method FetchRunDetails(lims: Lims, runPk: Value) returns (r: Option<RunDetails>)
    ensures runPk !in lims.runs ==> r == None
    ensures runPk in lims.runs ==> r == Some(RunDetails(Flatten(lims.runs[runPk]), DedupByPk(RunTraced(lims, runPk))))
  {
    if runPk !in lims.runs {
      return None;
    }
    var run := FlattenEntity(lims.runs[runPk]);
    var samples: seq<Record> := [];
    var seen: set<Value> := {};
    ghost var done: seq<Record> := [];
    ghost var all := RunTraced(lims, runPk);
    if runPk in lims.steps {
      var steps := lims.steps[runPk];
      var i := 0;
      while i < |steps|
        invariant 0 <= i <= |steps|
        invariant done + StepsTraced(lims, steps[i..]) == all
        invariant samples == DedupByPk(done) && seen == PkSet(samples)
      {
        RunStep(lims, steps, i, done, all);
        var stepPk := steps[i].pk;
        if stepPk !in lims.inputs {
          break;
        }
        var inputs := lims.inputs[stepPk];
        samples, seen := MergeInputs(lims, inputs, samples, seen, done);
        done := done + InputsTraced(lims, inputs);
        i := i + 1;
      }
      if i == |steps| {
        assert steps[i..] == [];
        assert done + [] == done;
      }
    }
    return Some(RunDetails(run, samples));
  }

  // ---------------------------------------------------------------------
  // Queued runs

  /** A run is queued when it has no step or some step is not DONE. */
  predicate IsQueued(steps: seq<Entity>) {
    steps == [] || exists s :: s in steps && GetOr(Flatten(s), "xprs_status", Null) != Str("DONE")
  }

  /** The runs of `runs` that are queued, appended to acc; None when a step request raises. */
  function KeepQueuedFrom(lims: Lims, acc: seq<Record>, runs: seq<Record>): Option<seq<Record>>
    decreases |runs|
  {
    if runs == [] then Some(acc)
    else if PkOf(runs[0]) !in lims.steps then None
    else KeepQueuedFrom(lims, if IsQueued(lims.steps[PkOf(runs[0])]) then acc + [runs[0]] else acc, runs[1..])
  }

  /** Reference filter: the queued runs, in input order. */
  function QueuedOnly(lims: Lims, runs: seq<Record>): seq<Record>
    requires forall r :: r in runs ==> PkOf(r) in lims.steps
  {
    if runs == [] then []
    else (if IsQueued(lims.steps[PkOf(runs[0])]) then [runs[0]] else []) + QueuedOnly(lims, runs[1..])
  }

  /** The step-status filter keeps the queued runs in input order, and fails exactly
      when some step request fails. */
  lemma {:induction false} KeepQueuedFilters(lims: Lims, acc: seq<Record>, runs: seq<Record>)
    ensures (forall r :: r in runs ==> PkOf(r) in lims.steps) <==> KeepQueuedFrom(lims, acc, runs).Some?
    ensures (forall r :: r in runs ==> PkOf(r) in lims.steps) ==>
              KeepQueuedFrom(lims, acc, runs) == Some(acc + QueuedOnly(lims, runs))
    decreases |runs|
  {
    if runs == [] {
      assert acc + [] == acc;
    } else {
      assert forall r :: r in runs <==> r == runs[0] || r in runs[1..];
      if PkOf(runs[0]) in lims.steps {
        var head := if IsQueued(lims.steps[PkOf(runs[0])]) then [runs[0]] else [];
        assert (if IsQueued(lims.steps[PkOf(runs[0])]) then acc + [runs[0]] else acc) == acc + head;
        KeepQueuedFilters(lims, acc + head, runs[1..]);
        if forall r :: r in runs ==> PkOf(r) in lims.steps {
          assert QueuedOnly(lims, runs) == head + QueuedOnly(lims, runs[1..]);
          assert (acc + head) + QueuedOnly(lims, runs[1..]) == acc + QueuedOnly(lims, runs);
        }
      }
    }
  }

  /** A run passes the filter exactly when it is queued. */
  lemma {:induction false} QueuedOnlyMembers(lims: Lims, runs: seq<Record>)
    requires forall r :: r in runs ==> PkOf(r) in lims.steps
    ensures forall r :: r in QueuedOnly(lims, runs) <==> r in runs && IsQueued(lims.steps[PkOf(r)])
    decreases |runs|
  {
    if runs != [] {
      assert forall r :: r in runs <==> r == runs[0] || r in runs[1..];
      QueuedOnlyMembers(lims, runs[1..]);
    }
  }

  /** The createdOn key a run sorts on (0 when absent; a bool counts as 0 or 1). */
  function CreatedOn(r: Record): int {
    match GetOr(r, "xprn_createdOn", Int(0))
    case Int(i) => i
    case Bool(b) => if b then 1 else 0
    case _ => 0
  }

  /** Whether the run's sort key is a number, so that comparing it cannot raise. */
  predicate Comparable(r: Record) {
    var v := GetOr(r, "xprn_createdOn", Int(0));
    v.Int? || v.Bool?
  }

  function TemplatePks(ts: seq<Entity>): seq<Value> {
    seq(|ts|, i requires 0 <= i < |ts| => ts[i].pk)
  }

  function FlattenAll(es: seq<Entity>): (r: seq<Record>)
    ensures |r| == |es| && forall i :: 0 <= i < |es| ==> r[i] == Flatten(es[i])
  {
    seq(|es|, i requires 0 <= i < |es| => Flatten(es[i]))
  }

  /** The queued runs the client reports: [] when no template is found or a request raises;
      otherwise the open runs that are queued, newest first. Sorting runs whose keys
      cannot be compared raises, and the client then reports []. */
  function QueuedRuns(lims: Lims): seq<Record> {
    match lims.templates
    case None => []
    case Some(ts) =>
      var tpks := TemplatePks(ts);
      if tpks == [] || tpks !in lims.openRuns then []
      else
        var all := FlattenAll(lims.openRuns[tpks]);
        if all == [] then []
        else
          match KeepQueuedFrom(lims, [], all)
          case None => []
          case Some(kept) =>
            if |kept| >= 2 && exists r :: r in kept && !Comparable(r) then [] else Sorting.SortDesc(kept, CreatedOn)
  }

  method FetchQueuedRuns(lims: Lims) returns (runs: seq<Record>)
    ensures runs == QueuedRuns(lims)
  {
    if lims.templates.None? {
      return [];
    }
    var tpks := TemplatePks(lims.templates.value);
    if tpks == [] || tpks !in lims.openRuns {
      return [];
    }
    var all := FlattenAll(lims.openRuns[tpks]);
    if all == [] {
      return [];
    }
    var queued: seq<Record> := [];
    var i := 0;
    while i < |all|
      invariant 0 <= i <= |all|
      invariant KeepQueuedFrom(lims, queued, all[i..]) == KeepQueuedFrom(lims, [], all)
    {
      var run := all[i];
      assert all[i..] == [run] + all[i + 1..];
      if PkOf(run) !in lims.steps {
        return [];
      }
      if IsQueued(lims.steps[PkOf(run)]) {
        queued := queued + [run];
      }
      i := i + 1;
    }
    if |queued| >= 2 && exists r :: r in queued && !Comparable(r) {
      return [];
    }
    runs := Sorting.SortDesc(queued, CreatedOn);
  }

  /** Every run reported is queued (no steps, or a step not DONE). */
  lemma QueuedRunsAreQueued(lims: Lims)
    ensures forall r :: r in QueuedRuns(lims) ==> PkOf(r) in lims.steps && IsQueued(lims.steps[PkOf(r)])
  {
    if lims.templates.Some? {
      var tpks := TemplatePks(lims.templates.value);
      if tpks != [] && tpks in lims.openRuns {
        var all := FlattenAll(lims.openRuns[tpks]);
        KeepQueuedFilters(lims, [], all);
        if KeepQueuedFrom(lims, [], all).Some? {
          QueuedOnlyMembers(lims, all);
          assert [] + QueuedOnly(lims, all) == QueuedOnly(lims, all);
          var kept := KeepQueuedFrom(lims, [], all).value;
          Sorting.SortDescSpec(kept, CreatedOn);
          forall r | r in Sorting.SortDesc(kept, CreatedOn) ensures r in kept {
            assert r in multiset(Sorting.SortDesc(kept, CreatedOn));
          }
        }
      }
    }
  }

  /** When every request succeeds and every queued run's createdOn is a number, the report holds
      exactly the queued open runs, newest first, ties in the order the LIMS listed them. */
  lemma QueuedRunsOrdered(lims: Lims, ts: seq<Entity>)
    requires lims.templates == Some(ts) && TemplatePks(ts) != [] && TemplatePks(ts) in lims.openRuns
    requires forall r :: r in FlattenAll(lims.openRuns[TemplatePks(ts)]) ==> PkOf(r) in lims.steps
    requires forall r :: r in QueuedOnly(lims, FlattenAll(lims.openRuns[TemplatePks(ts)])) ==> Comparable(r)
    ensures var all := FlattenAll(lims.openRuns[TemplatePks(ts)]);
      && multiset(QueuedRuns(lims)) == multiset(QueuedOnly(lims, all))
      && Sorting.NonIncreasing(QueuedRuns(lims), CreatedOn)
      && forall t :: Sorting.WithKey(QueuedRuns(lims), CreatedOn, t) == Sorting.WithKey(QueuedOnly(lims, all), CreatedOn, t)
  {
    var all := FlattenAll(lims.openRuns[TemplatePks(ts)]);
    KeepQueuedFilters(lims, [], all);
    QueuedOnlyMembers(lims, all);
    var kept := QueuedOnly(lims, all);
    assert [] + kept == kept;
    Sorting.SortDescSpec(kept, CreatedOn);
    if all != [] {
      assert QueuedRuns(lims) == Sorting.SortDesc(kept, CreatedOn);
    }
  }
}
