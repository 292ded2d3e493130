/** Values returned by the external booking API, seen the way the front-end
    duck-types them: truthiness, property access, and the probing of the
    inconsistent response envelopes for the first array-valued shape. */
module JsValues {

  /** A JSON-like response body whose array elements have type T. */
  datatype Payload<T> =
    | Undefined
    | Null
    | Bool(b: bool)
    | Num(n: int)
    | Str(s: string)
    | List(items: seq<T>)
    | Object(fields: map<string, Payload<T>>)

  /** A call into the API: it either threw (network error, rejected promise)
      or returned a value. */
  datatype CallResult<T> = Threw | Returned(value: T)

  /** JavaScript truthiness. */
  predicate Truthy<T>(p: Payload<T>) {
    match p
    case Undefined => false
    case Null => false
    case Bool(b) => b
    case Num(n) => n != 0
    case Str(s) => s != ""
    case List(_) => true
    case Object(_) => true
  }

  /** `p.key` for the data keys the front-end reads: only objects carry them. */
  function Field<T>(p: Payload<T>, key: string): Payload<T> {
    if p.Object? && key in p.fields then p.fields[key] else Undefined
  }

  /** The value reached by following a property path (`p.data.result` is
      `["data", "result"]`); an empty path is the response itself. */
  function ShapeAt<T>(p: Payload<T>, path: seq<string>): Payload<T>
    decreases |path|
  {
    if path == [] then p else ShapeAt(Field(p, path[0]), path[1..])
  }

  /** The items of the first shape, in order, that holds an array; the empty
      list when none does. */
  function Probe<T>(p: Payload<T>, shapes: seq<seq<string>>): seq<T>
    decreases |shapes|
  {
    if shapes == [] then []
    else if ShapeAt(p, shapes[0]).List? then ShapeAt(p, shapes[0]).items
    else Probe(p, shapes[1..])
  }

  /** Envelope shapes tried by the page for the user's reservations of the day:
      bare array, `data`, `result`, `RESULT`, `data.result`. */
  const PageShapes: seq<seq<string>> := [[], ["data"], ["result"], ["RESULT"], ["data", "result"]]

  /** Envelope shapes tried by the reservations list: the page's order with
      `list` tried before `data.result`. */
  const ModalShapes: seq<seq<string>> := [[], ["data"], ["result"], ["RESULT"], ["list"], ["data", "result"]]

  /** When shape k is the first one holding an array, its items are the result. */
  lemma {:induction false} ProbeFindsFirstArray<T>(p: Payload<T>, shapes: seq<seq<string>>, k: nat)
    requires k < |shapes| && ShapeAt(p, shapes[k]).List?
    requires forall j :: 0 <= j < k ==> !ShapeAt(p, shapes[j]).List?
    ensures Probe(p, shapes) == ShapeAt(p, shapes[k]).items
  {
    if k > 0 {
      assert !ShapeAt(p, shapes[0]).List?;
      ProbeFindsFirstArray(p, shapes[1..], k - 1);
    }
  }

  /** When no shape holds an array the list is empty. */
  lemma {:induction false} ProbeNoArray<T>(p: Payload<T>, shapes: seq<seq<string>>)
    requires forall j :: 0 <= j < |shapes| ==> !ShapeAt(p, shapes[j]).List?
    ensures Probe(p, shapes) == []
  {
    if shapes != [] {
      assert !ShapeAt(p, shapes[0]).List?;
      ProbeNoArray(p, shapes[1..]);
    }
  }

  /** The page and the reservations list read the same envelope alike unless
      it has an array under `list`. */
  lemma PageAndModalAgree<T>(p: Payload<T>)
    requires !ShapeAt(p, ["list"]).List?
    ensures Probe(p, PageShapes) == Probe(p, ModalShapes)
  {
    assert PageShapes[1..][1..][1..][1..] == [["data", "result"]];
    assert ModalShapes[1..][1..][1..][1..] == [["list"], ["data", "result"]];
  }

  // ---------------------------------------------------------------------------
  // How the front-end reads the outcome of a booking or a cancellation

  /** `response.entries` is truthy: arrays inherit the method Array#entries,
      objects need a truthy own `entries`. */
  predicate HasTruthyEntries<T>(p: Payload<T>) {
    p.List? || Truthy(Field(p, "entries"))
  }

  /** A booking request succeeded iff it returned a truthy value that has
      truthy `entries` or is a number. */
  predicate BookingSucceeded<T>(r: CallResult<Payload<T>>) {
    r.Returned? && Truthy(r.value) && (HasTruthyEntries(r.value) || r.value.Num?)
  }

  /** A cancellation succeeded iff it returned a truthy value whose `success`
      is not literally `false`. */
  predicate CancelSucceeded<T>(r: CallResult<Payload<T>>) {
    r.Returned? && Truthy(r.value) && Field(r.value, "success") != Bool(false)
  }
}
