/**
  Request bodies, allow-list checks and replies shared by the user and task routers.
  A parsed JSON body is a sequence of fields in the order the request wrote them; a property
  read `body[key]` sees the last field with that key, as `JSON.parse` keeps the last duplicate.
 */
module Http {

  datatype Option<T> = None | Some(value: T)

  newtype byte = b: int | 0 <= b < 256

  /** A MongoDB ObjectId, kept opaque. */
  type ObjectId = nat

  /**
    A JSON value as a request body carries it. `Ref` is an ObjectId the server itself
    places in a document (`req.user._id`); `Null` also stands for an absent property.
   */
  datatype Value = Null | Bool(b: bool) | Num(n: int) | Str(s: string) | Ref(id: ObjectId)

  /** One own property of a parsed JSON object. */
  datatype Field = Field(key: string, value: Value)

  type Body = seq<Field>

  /** The message both routers send when an update names a field outside their allow-list. */
  const InvalidUpdate: string := "Invalid update"

  /** What a handler sends back: a status code and a body. */
  datatype Reply<D> = Reply(status: int, payload: Payload<D>)

  /**
    `Empty` is `send()`, `Error(m)` is `json({ error: m })`, `StoreError` is a driver or
    validation error object passed straight to `json(err)` / `send(err)`, `Data` is a document.
   */
  datatype Payload<D> = Empty | Error(message: string) | StoreError | Data(data: D)

  /** `Object.keys(body)`, one key per field in body order (a repeated key is listed again). */
  function Keys(body: Body): (keys: seq<string>)
    ensures |keys| == |body|
    ensures forall i :: 0 <= i < |body| ==> keys[i] == body[i].key
  {
    if body == [] then [] else [body[0].key] + Keys(body[1..])
  }

  /** `body[key]`: the value of the last field named `key`, or nothing when there is none. */
  function Lookup(body: Body, key: string): (r: Option<Value>)
    ensures r.None? <==> key !in Keys(body)
    ensures r.Some? ==> exists i :: 0 <= i < |body| && body[i] == Field(key, r.value) &&
                                    forall j :: i < j < |body| ==> body[j].key != key
  {
    if body == [] then None
    else
      match Lookup(body[1..], key)
      case Some(v) =>
        ghost var i :| 0 <= i < |body[1..]| && body[1..][i] == Field(key, v) &&
                       forall j :: i < j < |body[1..]| ==> body[1..][j].key != key;
        assert body[i + 1] == Field(key, v);
        assert forall j :: i + 1 < j < |body| ==> body[j].key != key by {
          forall j | i + 1 < j < |body| ensures body[j].key != key {
            assert body[j] == body[1..][j - 1];
          }
        }
        Some(v)
      case None =>
        if body[0].key == key then
          assert forall j :: 0 < j < |body| ==> body[j].key != key by {
            forall j | 0 < j < |body| ensures body[j].key != key {
              assert body[j].key == Keys(body[1..])[j - 1];
            }
          }
          Some(body[0].value)
        else None
  }

  /** `body[key]`, or `default` when the body has no such property. */
  function LookupOr(body: Body, key: string, default: Value): Value {
    match Lookup(body, key)
    case Some(v) => v
    case None => default
  }

  /** A field appended at the end of a body overrides every earlier field of that name, and only those. */
  lemma {:induction false} LookupAppend(body: Body, f: Field, key: string)
    ensures Lookup(body + [f], key) == if key == f.key then Some(f.value) else Lookup(body, key)
  {
    if body == [] {
      assert body + [f] == [f];
      assert [f][1..] == [];
    } else {
      assert (body + [f])[1..] == body[1..] + [f];
      LookupAppend(body[1..], f, key);
    }
  }

  /** `updates.every(update => allowed.includes(update))` */
  function AllAllowed(updates: seq<string>, allowed: seq<string>): (ok: bool)
    ensures ok <==> forall i :: 0 <= i < |updates| ==> updates[i] in allowed
  {
    if updates == [] then true
    else updates[0] in allowed && AllAllowed(updates[1..], allowed)
  }

  /** When the allow-list check passes, every property the body carries is allowed. */
  lemma AllowedBodyFields(body: Body, allowed: seq<string>, key: string)
    requires AllAllowed(Keys(body), allowed)
    requires Lookup(body, key).Some?
    ensures key in allowed
  {
    var i :| 0 <= i < |Keys(body)| && Keys(body)[i] == key;
  }

  /** The value a field holds once the properties named in `done` have been copied from `body`. */
  function Assigned(body: Body, done: seq<string>, key: string, current: Value): Value {
    if key in done then LookupOr(body, key, Null) else current
  }

  /** Copying one more property changes only the field it names. */
  lemma AssignedStep(body: Body, updates: seq<string>, i: nat, current: Value, key: string)
    requires i < |updates|
    ensures Assigned(body, updates[..i + 1], key, current) ==
            if updates[i] == key then LookupOr(body, key, Null) else Assigned(body, updates[..i], key, current)
  {
    assert updates[..i + 1] == updates[..i] + [updates[i]];
  }

  /** Once every property of the body is copied, a field holds the body's value if it has one. */
  lemma AssignedAll(body: Body, current: Value, key: string)
    ensures Assigned(body, Keys(body)[..|body|], key, current) == LookupOr(body, key, current)
  {
    assert Keys(body)[..|body|] == Keys(body);
  }
}
