/**
  Argument validation of the `composite` entry point (NAN_METHOD(composite)
  in src/vtcomposite.cpp).

  JavaScript values are modelled by JsValue: only the distinctions the
  validation looks at are kept (object or not, array, function, Node buffer,
  number, null, undefined). Numbers are integers here; V8's IntegerValue
  conversion of a double is not part of this model.
*/
module Validation {
  import opened Wrappers
  import opened Deflate

  datatype JsValue =
    | Undefined
    | Null
    | Number(value: int)
    | Buffer(bytes: seq<byte>)
    | Function
    | Array(items: seq<JsValue>)
    | Object(props: map<string, JsValue>)
    | Other

  /** v8::Value::IsObject: arrays, functions and buffers are objects too. */
  predicate IsObject(v: JsValue)
  {
    v.Object? || v.Array? || v.Buffer? || v.Function?
  }

  /** v8::Object::Has for the property names the validation asks about;
      only plain objects carry named properties in this model. */
  predicate Has(v: JsValue, key: string)
  {
    v.Object? && key in v.props
  }

  /** FunctionCallbackInfo::operator[]: out-of-range arguments read as undefined. */
  function Arg(args: seq<JsValue>, i: int): JsValue
  {
    if 0 <= i < |args| then args[i] else Undefined
  }

  /** static_cast<std::uint32_t> of a non-negative 64-bit integer. */
  function ToUint32(n: int): nat
  {
    n % 0x1_0000_0000
  }

  /** One validated item of the `tiles` array (TileObject). */
  datatype TileObject = TileObject(z: nat, x: nat, y: nat, data: seq<byte>)

  /** The validated request handed to the worker (BatonType). */
  datatype Baton = Baton(tiles: seq<TileObject>, z: nat, x: nat, y: nat)

  /** How the call ends: a JavaScript exception thrown synchronously, the
      callback called with an error, or a worker queued with the baton. */
  datatype Outcome = Thrown(message: string) | CallbackError(message: string) | Scheduled(baton: Baton)

  const CallbackMessage: string := "last argument must be a callback function"
  const TilesArrayMessage: string := "first arg 'tiles' must be an array of tile objects"
  const EmptyTilesMessage: string := "'tiles' array must be of length greater than 0"
  const TileObjectMessage: string := "items in 'tiles' array must be objects"
  const MissingBufferMessage: string := "item in 'tiles' array does not include a buffer value"
  const NullBufferMessage: string := "buffer value in 'tiles' array item is null or undefined"
  const NotBufferMessage: string := "buffer value in 'tiles' array item is not a true buffer"
  const RequestObjectMessage: string := "'zxy_maprequest' must be an object"

  function MissingMessage(key: string): string
  {
    "item in 'tiles' array does not include a '" + key + "' value"
  }

  function NotNumberMessage(key: string): string
  {
    "'" + key + "' value in 'tiles' array item is not a number"
  }

  function NegativeMessage(key: string): string
  {
    "'" + key + "' value must not be less than zero"
  }

  /** The three checks of one coordinate: present, a number, not negative. */
  function Coordinate(obj: JsValue, key: string): Result<nat, string>
  {
    if !Has(obj, key) then Err(MissingMessage(key))
    else if !obj.props[key].Number? then Err(NotNumberMessage(key))
    else if obj.props[key].value < 0 then Err(NegativeMessage(key))
    else Ok(ToUint32(obj.props[key].value))
  }

  /** A coordinate is accepted exactly when it is a present, non-negative
      number, and then it is that number cast to 32 bits; otherwise the
      message names the first of the three checks that failed. */
  lemma CoordinateAccepts(obj: JsValue, key: string)
    ensures Coordinate(obj, key).Ok? <==>
      Has(obj, key) && obj.props[key].Number? && obj.props[key].value >= 0
    ensures Coordinate(obj, key).Ok? ==>
      Coordinate(obj, key).value == obj.props[key].value % 0x1_0000_0000 &&
      Coordinate(obj, key).value < 0x1_0000_0000
    ensures Has(obj, key) && obj.props[key].Number? && obj.props[key].value < 0 ==>
      Coordinate(obj, key) == Err("'" + key + "' value must not be less than zero")
  {
  }

  /** The checks of one item of the `tiles` array, in the order the source
      makes them: object, buffer, then z, x and y. */
  function ValidateTile(v: JsValue): Result<TileObject, string>
  {
    if !IsObject(v) then Err(TileObjectMessage)
    else if !Has(v, "buffer") then Err(MissingBufferMessage)
    else if v.props["buffer"].Null? || v.props["buffer"].Undefined? then Err(NullBufferMessage)
    else if !v.props["buffer"].Buffer? then Err(NotBufferMessage)
    else
      match Coordinate(v, "z")
      case Err(e) => Err(e)
      case Ok(z) =>
        match Coordinate(v, "x")
        case Err(e) => Err(e)
        case Ok(x) =>
          match Coordinate(v, "y")
          case Err(e) => Err(e)
          case Ok(y) => Ok(TileObject(z, x, y, v.props["buffer"].bytes))
  }

  /** The `tiles` array item by item; the first failing item stops it. */
  function ValidateTiles(items: seq<JsValue>): Result<seq<TileObject>, string>
    decreases |items|
  {
    if items == [] then Ok([])
    else
      match ValidateTiles(items[..|items| - 1])
      case Err(e) => Err(e)
      case Ok(ts) =>
        match ValidateTile(items[|items| - 1])
        case Err(e) => Err(e)
        case Ok(t) => Ok(ts + [t])
  }

  /** The map request object's z, x and y, checked with the same messages
      as a tile's coordinates. */
  function ValidateRequest(v: JsValue): Result<(nat, nat, nat), string>
  {
    if !IsObject(v) then Err(RequestObjectMessage)
    else
      match Coordinate(v, "z")
      case Err(e) => Err(e)
      case Ok(z) =>
        match Coordinate(v, "x")
        case Err(e) => Err(e)
        case Ok(x) =>
          match Coordinate(v, "y")
          case Err(e) => Err(e)
          case Ok(y) => Ok((z, x, y))
  }

  /** The whole entry point on its argument list: only a missing callback
      throws, and a worker is queued only with a non-empty, fully validated
      tiles array, one tile per item. */
  function Validate(args: seq<JsValue>): (r: Outcome)
    ensures r.Thrown? <==> !Arg(args, |args| - 1).Function?
    ensures r.Thrown? ==> r.message == CallbackMessage
    ensures r.Scheduled? ==>
      Arg(args, 0).Array? && 0 < |Arg(args, 0).items| &&
      ValidateTiles(Arg(args, 0).items) == Ok(r.baton.tiles) &&
      ValidateRequest(Arg(args, 1)) == Ok((r.baton.z, r.baton.x, r.baton.y))
  {
    if !Arg(args, |args| - 1).Function? then Thrown(CallbackMessage)
    else if !Arg(args, 0).Array? then CallbackError(TilesArrayMessage)
    else if |Arg(args, 0).items| == 0 then CallbackError(EmptyTilesMessage)
    else
      match ValidateTiles(Arg(args, 0).items)
      case Err(e) => CallbackError(e)
      case Ok(tiles) =>
        match ValidateRequest(Arg(args, 1))
        case Err(e) => CallbackError(e)
        case Ok(zxy) => Scheduled(Baton(tiles, zxy.0, zxy.1, zxy.2))
  }

  /** NAN_METHOD(composite): check the callback, then the tiles one by one,
      then the map request, and hand the baton to the worker. */
  method CheckArguments(args: seq<JsValue>) returns (outcome: Outcome)
    ensures outcome == Validate(args)
  {
    var callback := Arg(args, |args| - 1);
    if !callback.Function? {
      return Thrown(CallbackMessage);
    }
    var tilesVal := Arg(args, 0);
    if !tilesVal.Array? {
      return CallbackError(TilesArrayMessage);
    }
    var items := tilesVal.items;
    if |items| <= 0 {
      return CallbackError(EmptyTilesMessage);
    }
    var tiles: seq<TileObject> := [];
    for t := 0 to |items|
      invariant ValidateTiles(items[..t]) == Ok(tiles)
    {
      assert items[..t + 1][..t] == items[..t];
      var tile := ValidateTile(items[t]);
      if tile.Err? {
        assert items[..t + 1][t] == items[t];
        assert ValidateTiles(items[..t + 1]) == Err(tile.error);
        FirstFailureStops(items, t + 1);
        return CallbackError(tile.error);
      }
      tiles := tiles + [tile.value];
    }
    assert items[..|items|] == items;
    var request := ValidateRequest(Arg(args, 1));
    if request.Err? {
      return CallbackError(request.error);
    }
    outcome := Scheduled(Baton(tiles, request.value.0, request.value.1, request.value.2));
  }

  /** Once a prefix of the array fails, the whole array fails with the same message. */
  lemma {:induction false} FirstFailureStops(items: seq<JsValue>, n: nat)
    requires n <= |items|
    requires ValidateTiles(items[..n]).Err?
    ensures ValidateTiles(items) == ValidateTiles(items[..n])
    decreases |items| - n
  {
    if n < |items| {
      assert items[..n + 1][..n] == items[..n];
      FirstFailureStops(items, n + 1);
    } else {
      assert items[..n] == items;
    }
  }

  /** The array is accepted exactly when every item is, and then each
      validated tile comes from the item at the same position. */
  lemma {:induction false} ValidateTilesAll(items: seq<JsValue>)
    ensures ValidateTiles(items).Ok? <==> forall i :: 0 <= i < |items| ==> ValidateTile(items[i]).Ok?
    ensures ValidateTiles(items).Ok? ==>
      |ValidateTiles(items).value| == |items| &&
      forall i :: 0 <= i < |items| ==> ValidateTiles(items).value[i] == ValidateTile(items[i]).value
    decreases |items|
  {
    if items != [] {
      var prefix := items[..|items| - 1];
      ValidateTilesAll(prefix);
      assert forall i :: 0 <= i < |prefix| ==> prefix[i] == items[i];
    }
  }

  /** The error reported for the array is that of its first failing item. */
  lemma {:induction false} FirstFailingTileDecides(items: seq<JsValue>, i: nat)
    requires i < |items|
    requires ValidateTile(items[i]).Err?
    requires forall j :: 0 <= j < i ==> ValidateTile(items[j]).Ok?
    ensures ValidateTiles(items) == Err(ValidateTile(items[i]).error)
  {
    var prefix := items[..i];
    ValidateTilesAll(prefix);
    assert forall j :: 0 <= j < |prefix| ==> prefix[j] == items[j];
    assert items[..i + 1][..i] == prefix;
    assert items[..i + 1][i] == items[i];
    FirstFailureStops(items, i + 1);
  }

  /** An empty `tiles` array is refused through the callback, whatever else
      is passed, as long as the last argument is a function. */
  lemma EmptyTilesRejected(args: seq<JsValue>)
    requires |args| >= 2 && args[|args| - 1].Function? && args[0] == Array([])
    ensures Validate(args) == CallbackError("'tiles' array must be of length greater than 0")
  {
  }

  /** A call is queued exactly when the last argument is a function, the
      first is a non-empty array of acceptable tiles and the request object
      is acceptable; the exception is thrown exactly when the last argument
      is not a function. */
  lemma ValidateScheduled(args: seq<JsValue>)
    ensures Validate(args).Thrown? <==> !Arg(args, |args| - 1).Function?
    ensures Validate(args).Scheduled? <==>
      Arg(args, |args| - 1).Function? && Arg(args, 0).Array? && |Arg(args, 0).items| > 0 &&
      (forall i :: 0 <= i < |Arg(args, 0).items| ==> ValidateTile(Arg(args, 0).items[i]).Ok?) &&
      ValidateRequest(Arg(args, 1)).Ok?
    ensures Validate(args).Scheduled? ==>
      var b := Validate(args).baton;
      |b.tiles| == |Arg(args, 0).items| &&
      (b.z, b.x, b.y) == ValidateRequest(Arg(args, 1)).value
  {
    if Arg(args, 0).Array? {
      ValidateTilesAll(Arg(args, 0).items);
    }
  }

  /** A tile with a proper buffer and a negative z (x, y) is refused with
      the message for that coordinate. */
  lemma NegativeCoordinateRejected(v: JsValue, key: string)
    requires v.Object? && "buffer" in v.props && v.props["buffer"].Buffer?
    requires key in {"z", "x", "y"}
    requires key in v.props && v.props[key].Number? && v.props[key].value < 0
    ensures ValidateTile(v).Err?
    ensures key == "z" ==> ValidateTile(v) == Err(NegativeMessage("z"))
  {
  }
}
