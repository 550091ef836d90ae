/** The deterministic decisions of the job dispatcher: the node's shard of
    configuration paths (`get_config`), the backend ports, and the pure part
    of `post_request` (index extraction, skip test, payload, MIDI path). */
module VideoDispatch {
  import opened Wrappers
  import opened Text
  import opened ParseqDoc

  /** Python exceptions the modelled code can raise: `ceil(count / 0)`,
      `node_configs[0]` of an empty shard, `ports[gpu_id]` out of range. */
  datatype DispatchError = ZeroDivision | EmptyShard | NoSuchPort

  function Max(a: int, b: int): int { if a >= b then a else b }
  function Min(a: int, b: int): int { if a <= b then a else b }

  // ---------------------------------------------------------------------
  // get_config
  // ---------------------------------------------------------------------

  /** `ceil(a / b)` for a positive divisor. */
  function CeilDiv(a: int, b: nat): (c: int)
    requires b > 0
    ensures b * (c - 1) < a <= b * c
  {
    -((-a) / b)
  }

  /** The contiguous indices start, start + 1, ..., end - 1. */
  function Range(start: nat, end: nat): (s: seq<nat>)
    requires start <= end
    ensures |s| == end - start && forall j :: 0 <= j < |s| ==> s[j] == start + j
  {
    seq(end - start, j requires 0 <= j < end - start => start + j)
  }

  /** The indices the loop of `get_config` keeps among start + 0, ..., start + i - 1. */
  function Selected(count: int, start: nat, i: nat): seq<nat> {
    if i == 0 then []
    else Selected(count, start, i - 1) + (if start + i - 1 < count then [start + i - 1] else [])
  }

  /** `entries_by_node`. */
  function EntriesByNode(count: int, nodes: nat): int
    requires nodes > 0
  {
    CeilDiv(count, nodes)
  }

  /** The indices node `nodeId` is given. */
  function ShardIndices(count: int, nodes: nat, nodeId: nat): (s: seq<nat>)
    requires nodes > 0
    ensures forall k :: k in s ==> k < count
    ensures var e := EntriesByNode(count, nodes);
            forall k :: k in s ==> nodeId * e <= k < (nodeId + 1) * e
  {
    var e := EntriesByNode(count, nodes);
    if e <= 0 then [] else SelectedRange(count, nodeId * e, e); Selected(count, nodeId * e, e)
  }

  /** The configuration path of index k: `{root}/midi_parseq_{k+1}/parseq_{k+1}.json`. */
  function ConfigPath(root: string, k: nat): string {
    root + "/midi_parseq_" + Dec(k + 1) + "/parseq_" + Dec(k + 1) + ".json"
  }

  function ConfigPaths(root: string, ks: seq<nat>): seq<string> {
    seq(|ks|, j requires 0 <= j < |ks| => ConfigPath(root, ks[j]))
  }

  /** The loop keeps a contiguous run, cut off at `count`. */
  lemma {:induction false} SelectedRange(count: int, start: nat, i: nat)
    ensures Selected(count, start, i) == Range(start, start + Max(0, Min(i, count - start)))
  {
    if i > 0 {
      SelectedRange(count, start, i - 1);
    }
  }

  /** Node `nodeId` gets `nodeId * E + j` for j below max(0, min(E, count - nodeId * E)),
      in ascending order. */
  lemma ShardShape(count: int, nodes: nat, nodeId: nat)
    requires nodes > 0
    ensures var e := EntriesByNode(count, nodes);
      var s := ShardIndices(count, nodes, nodeId);
      && |s| == Max(0, Min(e, count - nodeId * e))
      && (forall j :: 0 <= j < |s| ==> s[j] == nodeId * e + j && s[j] < count)
  {
    var e := EntriesByNode(count, nodes);
    if e > 0 {
      SelectedRange(count, nodeId * e, e);
    } else {
      assert count <= 0;
    }
  }

  /** The shards of nodes 0 .. j - 1, one after the other. */
  function AllShards(count: int, nodes: nat, j: nat): seq<nat>
    requires nodes > 0
  {
    if j == 0 then [] else AllShards(count, nodes, j - 1) + ShardIndices(count, nodes, j - 1)
  }

  lemma {:induction false} AllShardsPrefix(count: int, nodes: nat, j: nat)
    requires nodes > 0 && EntriesByNode(count, nodes) > 0
    ensures AllShards(count, nodes, j) == Range(0, Max(0, Min(j * EntriesByNode(count, nodes), count)))
  {
    var e := EntriesByNode(count, nodes);
    if j > 0 {
      AllShardsPrefix(count, nodes, j - 1);
      ShardShape(count, nodes, j - 1);
      assert (j - 1) * e + e == j * e;
    }
  }

  /** The shards of nodes 0 .. nodes - 1 cover every index of [0, count)
      exactly once, in order. */
  lemma ShardsPartition(count: int, nodes: nat)
    requires nodes > 0
    ensures AllShards(count, nodes, nodes) == Range(0, Max(0, count))
  {
    var e := EntriesByNode(count, nodes);
    if e > 0 {
      AllShardsPrefix(count, nodes, nodes);
      assert nodes * e >= count;
    } else {
      AllShardsEmpty(count, nodes, nodes);
    }
  }

  lemma {:induction false} AllShardsEmpty(count: int, nodes: nat, j: nat)
    requires nodes > 0 && EntriesByNode(count, nodes) <= 0
    ensures AllShards(count, nodes, j) == [] && count <= 0
  {
    if j > 0 {
      AllShardsEmpty(count, nodes, j - 1);
    }
  }

  /** Ten configurations on three nodes are split 4, 4, 2; on four nodes 3, 3, 3, 1,
      so shard sizes can differ by more than one; on six nodes the last is empty. */
  lemma ShardSizesOfTen()
    ensures |ShardIndices(10, 3, 0)| == 4 && |ShardIndices(10, 3, 1)| == 4 && |ShardIndices(10, 3, 2)| == 2
    ensures |ShardIndices(10, 4, 0)| == 3 && |ShardIndices(10, 4, 1)| == 3
    ensures |ShardIndices(10, 4, 2)| == 3 && |ShardIndices(10, 4, 3)| == 1
    ensures |ShardIndices(10, 6, 5)| == 0
  {
    ShardShape(10, 3, 0); ShardShape(10, 3, 1); ShardShape(10, 3, 2);
    ShardShape(10, 4, 0); ShardShape(10, 4, 1); ShardShape(10, 4, 2); ShardShape(10, 4, 3);
    ShardShape(10, 6, 5);
  }

  /** `get_config` with the node count and id passed in. */
  method GetConfig(count: int, nodes: nat, nodeId: nat, datasetPath: string)
    returns (r: Result<seq<string>, DispatchError>)
    ensures nodes == 0 ==> r == Err(ZeroDivision)
    ensures nodes > 0 ==> var ks := ShardIndices(count, nodes, nodeId);
      && (r.Err? <==> |ks| == 0)
      && (r.Err? ==> r.error == EmptyShard)
      && (r.Ok? ==> r.value == ConfigPaths(datasetPath, ks))
  {
    if nodes == 0 { return Err(ZeroDivision); }
    var entriesByNode := -((-count) / nodes);
    ghost var start: nat := 0;
    if entriesByNode > 0 { start := nodeId * entriesByNode; }
    var nodeConfigs: seq<string> := [];
    var i := 0;
    while i < entriesByNode
      invariant entriesByNode > 0 ==> 0 <= i <= entriesByNode
      invariant entriesByNode <= 0 ==> i == 0
      invariant nodeConfigs == ConfigPaths(datasetPath, Selected(count, start, i))
    {
      var configIndex := nodeId * entriesByNode + i;
      if configIndex < count {
        nodeConfigs := nodeConfigs + [ConfigPath(datasetPath, configIndex)];
      }
      i := i + 1;
    }
    if |nodeConfigs| == 0 { return Err(EmptyShard); }
    return Ok(nodeConfigs);
  }

  // ---------------------------------------------------------------------
  // Ports and URL
  // ---------------------------------------------------------------------

  const BasePort := 52361

  /** `[52361 + i for i in range(local_world_size)]`. */
  function Ports(localWorldSize: nat): (ports: seq<int>)
    ensures |ports| == localWorldSize
  {
    seq(localWorldSize, i => BasePort + i)
  }

  /** Slot i is bound to port 52361 + i, and no two slots share a port. */
  lemma PortsDistinct(localWorldSize: nat)
    ensures forall i :: 0 <= i < localWorldSize ==> Ports(localWorldSize)[i] == BasePort + i
    ensures forall i, j :: 0 <= i < j < localWorldSize ==> Ports(localWorldSize)[i] != Ports(localWorldSize)[j]
  {
  }

  /** `f"http://127.0.0.1:{ports[gpu_id]}"`; the ports in use are positive. */
  function Url(ports: seq<nat>, gpuId: nat): (r: Result<string, DispatchError>)
    ensures r.Ok? <==> gpuId < |ports|
  {
    if gpuId < |ports| then Ok("http://127.0.0.1:" + Dec(ports[gpuId])) else Err(NoSuchPort)
  }

  // ---------------------------------------------------------------------
  // post_request: index, skip test, payload, MIDI path
  // ---------------------------------------------------------------------

  function Last(s: seq<string>): string requires |s| > 0 { s[|s| - 1] }

  /** `config.split('_')[-1].split('.')[0]`. */
  function ConfigIndex(config: string): (idx: string)
    ensures '_' !in idx && '.' !in idx
    ensures forall ch :: ch in idx ==> ch in config
  {
    Split(Last(Split(config, '_')), '.')[0]
  }

  lemma DecHasNoSeparators(n: nat)
    ensures '_' !in Dec(n) && '.' !in Dec(n) && '/' !in Dec(n)
  {
    assert forall i :: 0 <= i < |Dec(n)| ==> IsDigit(Dec(n)[i]);
  }

  /** The index string read back from a configuration path is `k + 1` in
      decimal, whatever the dataset root. */
  lemma ConfigIndexOfPath(root: string, k: nat)
    ensures ConfigIndex(ConfigPath(root, k)) == Dec(k + 1)
  {
    var d := Dec(k + 1);
    DecHasNoSeparators(k + 1);
    var p := root + "/midi_parseq_" + d + "/parseq";
    var q := d + ".json";
    assert ConfigPath(root, k) == p + ['_'] + q;
    assert '_' !in ".json";
    SplitLast(p, '_', q);
    assert q == d + ['.'] + "json";
    SplitFirst(d, '.', "json");
  }

  /** `int(config.split('_')[-1].split('.')[0])`, which fails unless the index is decimal digits. */
  function MidiIndex(config: string): Option<nat> {
    ParseNat(ConfigIndex(config))
  }

  /** Distinct indices get distinct configuration paths. */
  lemma ConfigPathInjective(root: string, i: nat, j: nat)
    ensures ConfigPath(root, i) == ConfigPath(root, j) <==> i == j
  {
    if ConfigPath(root, i) == ConfigPath(root, j) {
      ConfigIndexOfPath(root, i);
      ConfigIndexOfPath(root, j);
      ParseDec(i + 1);
      ParseDec(j + 1);
    }
  }

  /** A shard of distinct indices lists each configuration file once. */
  lemma ConfigPathsDistinct(root: string, ks: seq<nat>)
    requires forall a, b :: 0 <= a < b < |ks| ==> ks[a] != ks[b]
    ensures var ps := ConfigPaths(root, ks);
            |ps| == |ks| && forall a, b :: 0 <= a < b < |ps| ==> ps[a] != ps[b]
  {
    forall a, b | 0 <= a < b < |ks|
      ensures ConfigPaths(root, ks)[a] != ConfigPaths(root, ks)[b]
    {
      ConfigPathInjective(root, ks[a], ks[b]);
    }
  }

  /** `f"{dataset_path}/midi_parseq_{m}/midi_{m}.mid"`. */
  function MidiPath(root: string, m: nat): string {
    root + "/midi_parseq_" + Dec(m) + "/midi_" + Dec(m) + ".mid"
  }

  /** The MIDI file copied beside the render of configuration k is the one
      stored next to that configuration. */
  lemma MidiPathOfConfig(root: string, k: nat)
    ensures MidiIndex(ConfigPath(root, k)) == Some(k + 1)
    ensures MidiPath(root, MidiIndex(ConfigPath(root, k)).value)
            == root + "/midi_parseq_" + Dec(k + 1) + "/midi_" + Dec(k + 1) + ".mid"
  {
    ConfigIndexOfPath(root, k);
    ParseDec(k + 1);
  }

  const OutputImages: string := "/gpfsscratch/rech/fkc/uhx75if/midi_videos_output/img2img-images/batch_"

  /** `gen_path`, the output directory of a batch. */
  function GenPath(configIndex: string): string {
    OutputImages + configIndex + "/"
  }

  /** `any(".mp4" in file for file in names)`. */
  function AnyVideo(names: seq<string>): bool {
    if names == [] then false else AnyVideo(names[..|names| - 1]) || Contains(names[|names| - 1], ".mp4")
  }

  lemma {:induction false} AnyVideoIff(names: seq<string>)
    ensures AnyVideo(names) <==> exists j :: 0 <= j < |names| && Contains(names[j], ".mp4")
  {
    if names != [] {
      var init := names[..|names| - 1];
      AnyVideoIff(init);
      assert forall j :: 0 <= j < |init| ==> init[j] == names[j];
      if exists j :: 0 <= j < |names| && Contains(names[j], ".mp4") {
        var j :| 0 <= j < |names| && Contains(names[j], ".mp4");
        if j < |init| { assert Contains(init[j], ".mp4"); }
      }
    }
  }

  /** The skip test: the batch directory exists and one of its entries has
      ".mp4" in its name. `dirs` maps each existing directory to its entries;
      a file at `gen_path` does not exist for `os.path.exists` because of the
      trailing slash. */
  predicate AlreadyRendered(dirs: map<string, seq<string>>, configIndex: string)
    ensures AlreadyRendered(dirs, configIndex) <==>
      GenPath(configIndex) in dirs &&
      exists j :: 0 <= j < |dirs[GenPath(configIndex)]| && Contains(dirs[GenPath(configIndex)][j], ".mp4")
  {
    var gen := GenPath(configIndex);
    gen in dirs && (AnyVideoIff(dirs[gen]); AnyVideo(dirs[gen]))
  }

  const ManifestKey: string := "parseq_manifest"
  const OverridesKey: string := "parseq_non_schedule_overrides"
  const BatchNameKey: string := "batch_name"

  /** The three assignments into the loaded settings template. */
  function MergeSettings(template: map<string, Json>, manifest: string, configIndex: string): (s: map<string, Json>)
    ensures s.Keys == template.Keys + {ManifestKey, OverridesKey, BatchNameKey}
    ensures s[ManifestKey] == JStr(manifest) && s[OverridesKey] == JBool(true)
    ensures s[BatchNameKey] == JStr("batch_" + configIndex)
    ensures forall k :: k in template && k !in {ManifestKey, OverridesKey, BatchNameKey} ==> s[k] == template[k]
  {
    template[ManifestKey := JStr(manifest)][OverridesKey := JBool(true)][BatchNameKey := JStr("batch_" + configIndex)]
  }

  const OptionsOverrides: Json := JObj(map[
    "deforum_save_gen_info_as_srt" := JBool(true),
    "deforum_save_gen_info_as_srt_params" := JObj(map[])])

  /** The body of the POST: a single settings document and the fixed overrides. */
  function Payload(settings: map<string, Json>): (p: Json)
    ensures p.JObj? && p.fields.Keys == {"deforum_settings", "options_overrides"}
    ensures p.fields["deforum_settings"] == JArr([JObj(settings)])
    ensures p.fields["options_overrides"] == OptionsOverrides
  {
    JObj(map["deforum_settings" := JArr([JObj(settings)]), "options_overrides" := OptionsOverrides])
  }

  /** What `post_request` does before any network traffic. */
  datatype Decision = Already | Submit(endpoint: string, payload: Json)

  /** The decision of `post_request` on configuration path `config`, the
      serialised schedule `manifest`, the template `template` and the
      directories present; `ports[gpu_id]` is evaluated first. */
  function PostDecision(config: string, ports: seq<nat>, gpuId: nat, template: map<string, Json>,
                        manifest: string, dirs: map<string, seq<string>>): (r: Result<Decision, DispatchError>)
    ensures r.Err? <==> gpuId >= |ports|
    ensures r.Ok? ==> (r.value == Already <==> AlreadyRendered(dirs, ConfigIndex(config)))
    ensures r.Ok? && r.value.Submit? ==>
      && r.value.endpoint == Url(ports, gpuId).value + "/deforum_api/batches"
      && r.value.payload == Payload(MergeSettings(template, manifest, ConfigIndex(config)))
  {
    match Url(ports, gpuId)
    case Err(e) => Err(e)
    case Ok(url) =>
      var configIndex := ConfigIndex(config);
      var settings := MergeSettings(template, manifest, configIndex);
      if AlreadyRendered(dirs, configIndex) then Ok(Already)
      else Ok(Submit(url + "/deforum_api/batches", Payload(settings)))
  }

  /** For a path of the shard, the submitted batch is named after the path's index. */
  lemma SubmitBatchName(root: string, k: nat, ports: seq<nat>, gpuId: nat, template: map<string, Json>,
                        manifest: string, dirs: map<string, seq<string>>)
    requires gpuId < |ports|
    requires !AlreadyRendered(dirs, Dec(k + 1))
    ensures var r := PostDecision(ConfigPath(root, k), ports, gpuId, template, manifest, dirs);
      && r.Ok? && r.value.Submit?
      && r.value.payload.fields["deforum_settings"].items[0].fields[BatchNameKey] == JStr("batch_" + Dec(k + 1))
  {
    ConfigIndexOfPath(root, k);
  }
}
