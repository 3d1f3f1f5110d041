/**
  The compositing worker of src/vtcomposite.cpp (CompositeWorker::Execute).

  Every tile that contains the requested tile is decompressed when it is
  gzip or zlib, parsed, and its layers are added to one output tile: the
  first layer seen with a given name wins, later layers with that name are
  dropped. A layer from a tile at the requested zoom is copied as it is;
  one from a lower zoom is rebuilt feature by feature, scaled by the zoom
  factor and clipped to the requested tile.

  Everything the worker calls into and that is not part of this model is a
  field of Env: the within_target and displacement routines of zxy_math.hpp,
  gzip-hpp's decompressor, vtzero's tile parser and serializer, and the
  feature re-encoder. A C++ exception is an Err carrying its message.
*/
module Composite {
  import opened Wrappers
  import opened Deflate
  import opened Geometry
  import opened FeatureBuilder
  import opened Validation

  /** Width and height of a tile in tile coordinates. */
  const TileSize: int := 4096

  /** A layer of a parsed input tile. */
  datatype Layer = Layer(name: string, features: seq<Feature>)

  /** A layer of the output tile: copied from an input tile, or rebuilt. */
  datatype OutLayer = Existing(layer: Layer) | Rebuilt(name: string, features: seq<BuiltFeature>)

  function OutName(o: OutLayer): string
  {
    match o
    case Existing(l) => l.name
    case Rebuilt(n, _) => n
  }

  /** The routines the worker calls that are not part of this model. */
  datatype Env = Env(
    withinTarget: (TileObject, nat, nat, nat) -> bool,
    displacement: (int, int, nat, nat, nat) -> (int, int),
    decompress: seq<byte> -> Result<seq<byte>, string>,
    parse: seq<byte> -> Result<seq<Layer>, string>,
    reencode: (Feature, Placement) -> Result<seq<BuiltFeature>, string>,
    serialize: seq<OutLayer> -> Result<seq<byte>, string>)

  /** within_target only accepts a tile at the requested zoom or above it,
      so that the zoom difference is never negative. */
  predicate TilesBelowTarget(tiles: seq<TileObject>, b: Baton, env: Env)
  {
    forall t :: t in tiles && env.withinTarget(t, b.z, b.x, b.y) ==> t.z <= b.z
  }

  function Pow2(n: nat): nat
  {
    if n == 0 then 1 else 2 * Pow2(n - 1)
  }

  /** The zoom factor is one exactly when the zoom difference is zero. */
  lemma {:induction false} Pow2IsOneOnlyAtZero(n: nat)
    ensures Pow2(n) >= 1
    ensures Pow2(n) == 1 <==> n == 0
  {
    if n > 0 {
      Pow2IsOneOnlyAtZero(n - 1);
    }
  }

  /** The clip box of the requested tile: one tile wide and tall from (dx, dy). */
  function ClipBox(dx: int, dy: int): Box
  {
    Box(Point(dx, dy), Point(dx + TileSize, dy + TileSize))
  }

  /** Scale, displacement and clip box used for the layers of an accepted tile. */
  function TilePlacement(tile: TileObject, b: Baton, env: Env): Placement
    requires tile.z <= b.z
  {
    var zoomFactor := Pow2(b.z - tile.z);
    var d := env.displacement(zoomFactor, TileSize, b.z, b.x, b.y);
    Placement(ClipBox(d.0, d.1), d.0, d.1, zoomFactor)
  }

  /** One layer of an accepted tile, with the placement of its tile. */
  datatype Entry = Entry(layer: Layer, placement: Placement)

  /** The tile's bytes, inflated when they carry a gzip or zlib signature. */
  function Decoded(tile: TileObject, env: Env): (r: Result<seq<byte>, string>)
    ensures !IsCompressed(tile.data) ==> r == Ok(tile.data)
    ensures r.Err? ==> |tile.data| > 2 && tile.data[..2] in Signatures
  {
    if IsCompressed(tile.data) then env.decompress(tile.data) else Ok(tile.data)
  }

  /** The layers a tile contributes, in tile order: none when the tile does
      not contain the requested tile. */
  function TileEntries(tile: TileObject, b: Baton, env: Env): Result<seq<Entry>, string>
    requires env.withinTarget(tile, b.z, b.x, b.y) ==> tile.z <= b.z
  {
    if !env.withinTarget(tile, b.z, b.x, b.y) then Ok([])
    else
      match Decoded(tile, env)
      case Err(e) => Err(e)
      case Ok(bytes) =>
        match env.parse(bytes)
        case Err(e) => Err(e)
        case Ok(layers) =>
          var p := TilePlacement(tile, b, env);
          Ok(seq(|layers|, i requires 0 <= i < |layers| => Entry(layers[i], p)))
  }

  /** The features of a layer re-encoded one by one; the first failure stops it. */
  function RebuildFeatures(features: seq<Feature>, p: Placement, env: Env): Result<seq<BuiltFeature>, string>
    decreases |features|
  {
    if features == [] then Ok([])
    else
      match RebuildFeatures(features[..|features| - 1], p, env)
      case Err(e) => Err(e)
      case Ok(built) =>
        match env.reencode(features[|features| - 1], p)
        case Err(e) => Err(e)
        case Ok(fs) => Ok(built + fs)
  }

  /** The output layer for an entry that wins its name. */
  function Emit(e: Entry, env: Env): Result<OutLayer, string>
  {
    if e.placement.zoomFactor == 1 then Ok(Existing(e.layer))
    else
      match RebuildFeatures(e.layer.features, e.placement, env)
      case Err(err) => Err(err)
      case Ok(fs) => Ok(Rebuilt(e.layer.name, fs))
  }

  /** The names taken so far and the output layers, in the order they were added. */
  datatype Progress = Progress(names: seq<string>, layers: seq<OutLayer>)

  const Start: Progress := Progress([], [])

  /** One layer: skipped when its name is taken, otherwise its name is taken
      and its output layer added. */
  function EntryStep(pr: Progress, e: Entry, env: Env): Result<Progress, string>
  {
    if e.layer.name in pr.names then Ok(pr)
    else
      match Emit(e, env)
      case Err(err) => Err(err)
      case Ok(o) => Ok(Progress(pr.names + [e.layer.name], pr.layers + [o]))
  }

  /** Layers fed one by one; the first exception stops it. Names and output
      layers already taken are never dropped or changed, and each new name
      brings exactly one new output layer. */
  function Feed(pr: Progress, es: seq<Entry>, env: Env): (r: Result<Progress, string>)
    ensures r.Ok? ==>
      pr.names <= r.value.names && pr.layers <= r.value.layers &&
      |r.value.names| - |pr.names| == |r.value.layers| - |pr.layers|
    decreases |es|
  {
    if es == [] then Ok(pr)
    else
      match Feed(pr, es[..|es| - 1], env)
      case Err(e) => Err(e)
      case Ok(p) => EntryStep(p, es[|es| - 1], env)
  }

  /** One tile of the request. */
  function TileStep(pr: Progress, tile: TileObject, b: Baton, env: Env): Result<Progress, string>
    requires env.withinTarget(tile, b.z, b.x, b.y) ==> tile.z <= b.z
  {
    match TileEntries(tile, b, env)
    case Err(e) => Err(e)
    case Ok(es) => Feed(pr, es, env)
  }

  /** The tiles of the request in order; the first exception ends the run. */
  function Run(pr: Progress, tiles: seq<TileObject>, b: Baton, env: Env): (r: Result<Progress, string>)
    requires TilesBelowTarget(tiles, b, env)
    ensures r.Ok? ==>
      pr.names <= r.value.names && pr.layers <= r.value.layers &&
      |r.value.names| - |pr.names| == |r.value.layers| - |pr.layers|
    decreases |tiles|
  {
    if tiles == [] then Ok(pr)
    else
      var t := tiles[|tiles| - 1];
      assert t in tiles;
      match Run(pr, tiles[..|tiles| - 1], b, env)
      case Err(e) => Err(e)
      case Ok(p) => TileStep(p, t, b, env)
  }

  /** What the worker ends with: the serialized output tile, or the message
      of the first exception. */
  function Composited(b: Baton, env: Env): (r: Result<seq<byte>, string>)
    requires TilesBelowTarget(b.tiles, b, env)
    ensures Run(Start, b.tiles, b, env).Err? ==> r == Err(Run(Start, b.tiles, b, env).error)
  {
    match Run(Start, b.tiles, b, env)
    case Err(e) => Err(e)
    case Ok(pr) => env.serialize(pr.layers)
  }

  // ---------------------------------------------------------------------------
  // The worker
  // ---------------------------------------------------------------------------

  /** The feature loop of a rebuilt layer (layer.for_each_feature). */
  method RebuildLayer(layer: Layer, p: Placement, env: Env) returns (r: Result<seq<BuiltFeature>, string>)
    ensures r == RebuildFeatures(layer.features, p, env)
  {
    var built: seq<BuiltFeature> := [];
    for k := 0 to |layer.features|
      invariant RebuildFeatures(layer.features[..k], p, env) == Ok(built)
    {
      assert layer.features[..k + 1][..k] == layer.features[..k];
      var fs := env.reencode(layer.features[k], p);
      if fs.Err? {
        FirstRebuildFailureStops(layer.features, k + 1, p, env);
        return Err(fs.error);
      }
      built := built + fs.value;
    }
    assert layer.features[..|layer.features|] == layer.features;
    r := Ok(built);
  }

  /** The body of the tile loop for one tile: test it against the requested
      tile, inflate and parse it, and add every layer whose name is new. */
  method AddTile(pr: Progress, tile: TileObject, b: Baton, env: Env) returns (r: Result<Progress, string>)
    requires env.withinTarget(tile, b.z, b.x, b.y) ==> tile.z <= b.z
    ensures r == TileStep(pr, tile, b, env)
  {
    if !env.withinTarget(tile, b.z, b.x, b.y) {
      return Ok(pr);
    }
    var buffer: seq<byte>;
    if IsCompressed(tile.data) {
      var inflated := env.decompress(tile.data);
      if inflated.Err? {
        return Err(inflated.error);
      }
      buffer := inflated.value;
    } else {
      buffer := tile.data;
    }
    var zoomFactor := Pow2(b.z - tile.z);
    var parsed := env.parse(buffer);
    if parsed.Err? {
      return Err(parsed.error);
    }
    var layers := parsed.value;
    var d := env.displacement(zoomFactor, TileSize, b.z, b.x, b.y);
    var placement := Placement(ClipBox(d.0, d.1), d.0, d.1, zoomFactor);
    ghost var es := TileEntries(tile, b, env).value;
    assert |es| == |layers|;
    var names := pr.names;
    var out := pr.layers;
    var j := 0;
    while j < |layers|
      invariant 0 <= j <= |layers|
      invariant Feed(pr, es[..j], env) == Ok(Progress(names, out))
    {
      assert es[..j + 1][..j] == es[..j];
      assert es[j] == Entry(layers[j], placement);
      var layer := layers[j];
      if layer.name !in names {
        names := names + [layer.name];
        if zoomFactor == 1 {
          out := out + [Existing(layer)];
        } else {
          var built := RebuildLayer(layer, placement, env);
          if built.Err? {
            FirstFeedFailureStops(pr, es, j + 1, env);
            return Err(built.error);
          }
          out := out + [Rebuilt(layer.name, built.value)];
        }
      }
      j := j + 1;
    }
    assert es[..|layers|] == es;
    r := Ok(Progress(names, out));
  }

  class CompositeWorker {
    const baton: Baton
    const env: Env
    /** The serialized output tile handed to the callback. */
    var output: seq<byte>
    /** The message the callback receives as its error, once set. */
    var errorMessage: Option<string>

    constructor (baton: Baton, env: Env)
      ensures this.baton == baton && this.env == env
      ensures output == [] && errorMessage == None
    {
      this.baton := baton;
      this.env := env;
      output := [];
      errorMessage := None;
    }

    /** Composite the tiles of the baton into one serialized tile, or record
        the message of the first exception and leave the output alone. */
    method Execute()
      requires TilesBelowTarget(baton.tiles, baton, env)
      modifies this
      ensures Composited(baton, env).Ok? ==>
        output == Composited(baton, env).value && errorMessage == old(errorMessage)
      ensures Composited(baton, env).Err? ==>
        errorMessage == Some(Composited(baton, env).error) && output == old(output)
    {
      var pr := Start;
      for i := 0 to |baton.tiles|
        invariant Run(Start, baton.tiles[..i], baton, env) == Ok(pr)
        invariant output == old(output) && errorMessage == old(errorMessage)
      {
        assert baton.tiles[..i + 1][..i] == baton.tiles[..i];
        assert baton.tiles[i] in baton.tiles;
        var next := AddTile(pr, baton.tiles[i], baton, env);
        assert Run(Start, baton.tiles[..i + 1], baton, env) == next;
        if next.Err? {
          FirstRunFailureStops(baton.tiles, i + 1, baton, env);
          errorMessage := Some(next.error);
          return;
        }
        pr := next.value;
      }
      assert baton.tiles[..|baton.tiles|] == baton.tiles;
      assert Run(Start, baton.tiles, baton, env) == Ok(pr);
      var serialized := env.serialize(pr.layers);
      if serialized.Err? {
        errorMessage := Some(serialized.error);
        return;
      }
      output := serialized.value;
    }
  }

  // ---------------------------------------------------------------------------
  // An exception ends everything
  // ---------------------------------------------------------------------------

  lemma {:induction false} FirstRebuildFailureStops(features: seq<Feature>, n: nat, p: Placement, env: Env)
    requires n <= |features|
    requires RebuildFeatures(features[..n], p, env).Err?
    ensures RebuildFeatures(features, p, env) == RebuildFeatures(features[..n], p, env)
    decreases |features| - n
  {
    if n < |features| {
      assert features[..n + 1][..n] == features[..n];
      FirstRebuildFailureStops(features, n + 1, p, env);
    } else {
      assert features[..n] == features;
    }
  }

  lemma {:induction false} FirstFeedFailureStops(pr: Progress, es: seq<Entry>, n: nat, env: Env)
    requires n <= |es|
    requires Feed(pr, es[..n], env).Err?
    ensures Feed(pr, es, env) == Feed(pr, es[..n], env)
    decreases |es| - n
  {
    if n < |es| {
      assert es[..n + 1][..n] == es[..n];
      FirstFeedFailureStops(pr, es, n + 1, env);
    } else {
      assert es[..n] == es;
    }
  }

  /** Once a tile raises an exception, the later tiles change nothing: the
      run ends with that exception's message. */
  lemma {:induction false} FirstRunFailureStops(tiles: seq<TileObject>, n: nat, b: Baton, env: Env)
    requires TilesBelowTarget(tiles, b, env)
    requires n <= |tiles|
    requires Run(Start, tiles[..n], b, env).Err?
    ensures Run(Start, tiles, b, env) == Run(Start, tiles[..n], b, env)
    decreases |tiles| - n
  {
    if n < |tiles| {
      assert tiles[..n + 1][..n] == tiles[..n];
      FirstRunFailureStops(tiles, n + 1, b, env);
    } else {
      assert tiles[..n] == tiles;
    }
  }

  // ---------------------------------------------------------------------------
  // First wins
  // ---------------------------------------------------------------------------

  function Names(es: seq<Entry>): seq<string>
  {
    seq(|es|, i requires 0 <= i < |es| => es[i].layer.name)
  }

  /** The entries that are first with their name, in order: the reference
      definition of the layer deduplication. */
  function FirstEntries(es: seq<Entry>): seq<Entry>
    decreases |es|
  {
    if es == [] then []
    else
      var e := es[|es| - 1];
      FirstEntries(es[..|es| - 1]) + (if e.layer.name in Names(es[..|es| - 1]) then [] else [e])
  }

  /** The output layers of a sequence of entries; the first failure stops it. */
  function EmitAll(es: seq<Entry>, env: Env): Result<seq<OutLayer>, string>
    decreases |es|
  {
    if es == [] then Ok([])
    else
      match EmitAll(es[..|es| - 1], env)
      case Err(e) => Err(e)
      case Ok(os) =>
        match Emit(es[|es| - 1], env)
        case Err(e) => Err(e)
        case Ok(o) => Ok(os + [o])
  }

  /** The winners carry the same names as the entries, each once, and every
      winner is the earliest entry with its name. */
  lemma {:induction false} FirstEntriesShape(es: seq<Entry>)
    ensures forall n :: n in Names(FirstEntries(es)) <==> n in Names(es)
    ensures forall i, j :: 0 <= i < j < |FirstEntries(es)| ==>
      FirstEntries(es)[i].layer.name != FirstEntries(es)[j].layer.name
    ensures forall k :: 0 <= k < |FirstEntries(es)| ==>
      exists i :: 0 <= i < |es| && es[i] == FirstEntries(es)[k] &&
        forall j :: 0 <= j < i ==> es[j].layer.name != es[i].layer.name
    decreases |es|
  {
    if es != [] {
      var p := es[..|es| - 1];
      var e := es[|es| - 1];
      FirstEntriesShape(p);
      var fp := FirstEntries(p);
      var f := FirstEntries(es);
      assert f == fp + (if e.layer.name in Names(p) then [] else [e]);
      assert Names(es) == Names(p) + [e.layer.name];
      assert Names(f) == Names(fp) + (if e.layer.name in Names(p) then [] else [e.layer.name]);
      assert forall k :: 0 <= k < |fp| ==> f[k] == fp[k];
      forall k | 0 <= k < |f|
        ensures exists i :: 0 <= i < |es| && es[i] == f[k] &&
                            forall j :: 0 <= j < i ==> es[j].layer.name != es[i].layer.name
      {
        if k < |fp| {
          var i :| 0 <= i < |p| && p[i] == fp[k] &&
            forall j :: 0 <= j < i ==> p[j].layer.name != p[i].layer.name;
          assert es[i] == p[i];
        } else {
          var last := |es| - 1;
          assert es[last] == f[k];
          forall j | 0 <= j < last
            ensures es[j].layer.name != es[last].layer.name
          {
            assert Names(p)[j] == es[j].layer.name;
          }
        }
      }
      if e.layer.name !in Names(p) {
        forall i | 0 <= i < |fp|
          ensures fp[i].layer.name != e.layer.name
        {
          assert Names(fp)[i] == fp[i].layer.name;
        }
      }
    }
  }

  /** Feeding entries one by one from an empty output is the same as taking
      the first entry of every name and emitting those in order. */
  lemma {:induction false} FeedIsFirstWins(es: seq<Entry>, env: Env)
    ensures Feed(Start, es, env) ==
      match EmitAll(FirstEntries(es), env)
      case Err(e) => Err(e)
      case Ok(os) => Ok(Progress(Names(FirstEntries(es)), os))
    decreases |es|
  {
    if es != [] {
      var p := es[..|es| - 1];
      var e := es[|es| - 1];
      FeedIsFirstWins(p, env);
      FirstEntriesShape(p);
      var fp := FirstEntries(p);
      assert Feed(Start, es, env) ==
        match Feed(Start, p, env)
        case Err(err) => Err(err)
        case Ok(pr) => EntryStep(pr, e, env);
      if e.layer.name !in Names(p) {
        var f := fp + [e];
        assert FirstEntries(es) == f;
        assert f[..|f| - 1] == fp;
        assert Names(f) == Names(fp) + [e.layer.name];
      } else {
        assert FirstEntries(es) == fp;
        assert e.layer.name in Names(fp);
      }
    }
  }

  /** Every output layer carries the name of the entry it came from. */
  lemma {:induction false} EmitAllNames(es: seq<Entry>, env: Env)
    ensures EmitAll(es, env).Ok? ==>
      |EmitAll(es, env).value| == |es| &&
      forall i :: 0 <= i < |es| ==> OutName(EmitAll(es, env).value[i]) == es[i].layer.name
    decreases |es|
  {
    if es != [] {
      EmitAllNames(es[..|es| - 1], env);
    }
  }

  /** The layers of every tile that contains the requested tile, in tile
      order; the first tile that cannot be inflated or parsed fails it. */
  function AllEntries(tiles: seq<TileObject>, b: Baton, env: Env): Result<seq<Entry>, string>
    requires TilesBelowTarget(tiles, b, env)
    decreases |tiles|
  {
    if tiles == [] then Ok([])
    else
      var t := tiles[|tiles| - 1];
      assert t in tiles;
      match AllEntries(tiles[..|tiles| - 1], b, env)
      case Err(e) => Err(e)
      case Ok(es) =>
        match TileEntries(t, b, env)
        case Err(e) => Err(e)
        case Ok(more) => Ok(es + more)
  }

  lemma {:induction false} FeedAppend(pr: Progress, a: seq<Entry>, c: seq<Entry>, env: Env)
    ensures Feed(pr, a + c, env) ==
      match Feed(pr, a, env)
      case Err(e) => Err(e)
      case Ok(p) => Feed(p, c, env)
    decreases |c|
  {
    if c == [] {
      assert a + c == a;
    } else {
      var c' := c[..|c| - 1];
      assert (a + c)[..|a + c| - 1] == a + c';
      FeedAppend(pr, a, c', env);
    }
  }

  /** When every accepted tile inflates and parses, the run is the layers
      of all accepted tiles fed in order; when one does not, the run fails. */
  lemma {:induction false} RunIsFeed(tiles: seq<TileObject>, b: Baton, env: Env)
    requires TilesBelowTarget(tiles, b, env)
    ensures AllEntries(tiles, b, env).Ok? ==> Run(Start, tiles, b, env) == Feed(Start, AllEntries(tiles, b, env).value, env)
    ensures AllEntries(tiles, b, env).Err? ==> Run(Start, tiles, b, env).Err?
    decreases |tiles|
  {
    if tiles != [] {
      var p := tiles[..|tiles| - 1];
      var t := tiles[|tiles| - 1];
      assert t in tiles;
      RunIsFeed(p, b, env);
      if AllEntries(p, b, env).Ok? && TileEntries(t, b, env).Ok? {
        FeedAppend(Start, AllEntries(p, b, env).value, TileEntries(t, b, env).value, env);
      }
    }
  }

  /** First wins over the whole request: a successful composite serializes
      the first layer of every name, over the accepted tiles in order, and
      no name appears twice in the output. */
  lemma CompositedFirstWins(b: Baton, env: Env)
    requires TilesBelowTarget(b.tiles, b, env)
    ensures Composited(b, env).Ok? ==>
      AllEntries(b.tiles, b, env).Ok? &&
      var winners := FirstEntries(AllEntries(b.tiles, b, env).value);
      EmitAll(winners, env).Ok? &&
      env.serialize(EmitAll(winners, env).value) == Composited(b, env) &&
      |EmitAll(winners, env).value| == |winners| &&
      (forall i, j :: 0 <= i < j < |winners| ==>
        OutName(EmitAll(winners, env).value[i]) != OutName(EmitAll(winners, env).value[j]))
  {
    RunIsFeed(b.tiles, b, env);
    if AllEntries(b.tiles, b, env).Ok? {
      var es := AllEntries(b.tiles, b, env).value;
      FeedIsFirstWins(es, env);
      FirstEntriesShape(es);
      EmitAllNames(FirstEntries(es), env);
    }
  }

  /** A tile that does not contain the requested tile changes nothing. */
  lemma RejectedTileChangesNothing(tiles: seq<TileObject>, t: TileObject, b: Baton, env: Env)
    requires TilesBelowTarget(tiles + [t], b, env)
    requires !env.withinTarget(t, b.z, b.x, b.y)
    ensures TilesBelowTarget(tiles, b, env)
    ensures Run(Start, tiles + [t], b, env) == Run(Start, tiles, b, env)
  {
    assert (tiles + [t])[..|tiles|] == tiles;
  }

  /** A tile at the requested zoom contributes its layers verbatim; a tile
      from a lower zoom has all its layers rebuilt. Either way the clip box is
      exactly one tile wide and tall. */
  lemma SameZoomCopiesLayers(tile: TileObject, b: Baton, env: Env)
    requires env.withinTarget(tile, b.z, b.x, b.y) && tile.z <= b.z
    requires TileEntries(tile, b, env).Ok?
    ensures forall e :: e in TileEntries(tile, b, env).value ==>
      (Emit(e, env) == Ok(Existing(e.layer)) <==> tile.z == b.z) &&
      e.placement.bbox.max.x - e.placement.bbox.min.x == TileSize &&
      e.placement.bbox.max.y - e.placement.bbox.min.y == TileSize
  {
    Pow2IsOneOnlyAtZero(b.z - tile.z);
  }
}
