/**
 The part of PHP's value model that the finder inspects: the arrays produced by decoding a
 JSON response, and the few operators it applies to them (`!`, `?? null`, `foreach`).
 */
module PhpValue {
  import opened Wrappers

  /** An array key. Decoded JSON objects have string keys, decoded JSON lists integer keys. */
  datatype Key = IntKey(n: int) | StrKey(s: string)

  /**
   A decoded JSON value. `Other` stands for booleans and floats: every check the finder
   makes (`is_array`, `is_int`, `=== 'failure'`) rejects them alike.
   */
  datatype Value = Null | Int(i: int) | Str(s: string) | Arr(entries: seq<Entry>) | Other

  /** One key/value pair of an ordered PHP array. */
  datatype Entry = Entry(key: Key, val: Value)

  /** `$a[$k] ?? null`: the value stored under `k`, or `Null` when `k` is absent. */
  function Coalesce(a: seq<Entry>, k: Key): (v: Value)
    ensures v != Null ==> Entry(k, v) in a
    ensures (forall i :: 0 <= i < |a| ==> a[i].key != k) ==> v == Null
  {
    if |a| == 0 then Null
    else if a[0].key == k then a[0].val
    else Coalesce(a[1..], k)
  }

  /** The value found is the one of the first entry carrying the key. */
  lemma {:induction false} CoalesceFirst(a: seq<Entry>, i: nat, k: Key)
    requires i < |a| && a[i].key == k
    requires forall j :: 0 <= j < i ==> a[j].key != k
    ensures Coalesce(a, k) == a[i].val
  {
    if i > 0 {
      assert a[0].key != k;
      CoalesceFirst(a[1..], i - 1, k);
    }
  }

  /** `!$x` for a `?array`: true for `null` and for the empty array. */
  predicate Falsy(x: Option<seq<Entry>>) {
    x.None? || x.value == []
  }

  /** The values of an array in iteration order, as `foreach` visits them. */
  function Values(a: seq<Entry>): seq<Value> {
    seq(|a|, i requires 0 <= i < |a| => a[i].val)
  }

  /**
   The list stored under `key` in a response: absent when the response is falsy, or when
   `$response[key] ?? null` is not an array.
   */
  function Listed(response: Option<seq<Entry>>, key: string): (vs: Option<seq<Value>>)
    ensures response == None || response == Some([]) ==> vs == None
    ensures response.Some? && (forall i :: 0 <= i < |response.value| ==> response.value[i].key != StrKey(key))
      ==> vs == None
    ensures vs.Some? ==>
      exists i :: 0 <= i < |response.value| && response.value[i].key == StrKey(key)
        && response.value[i].val.Arr? && vs.value == Values(response.value[i].val.entries)
  {
    if Falsy(response) then None
    else match Coalesce(response.value, StrKey(key))
      case Arr(entries) =>
        assert Entry(StrKey(key), Arr(entries)) in response.value;
        Some(Values(entries))
      case _ => None
  }

  /**
   When entry `i` is the first one under `key`, the response lists exactly when that entry
   holds an array, and the list is that array's values in order.
   */
  lemma ListedFirst(a: seq<Entry>, key: string, i: nat)
    requires i < |a| && a[i].key == StrKey(key)
    requires forall j :: 0 <= j < i ==> a[j].key != StrKey(key)
    ensures Listed(Some(a), key).Some? <==> a[i].val.Arr?
    ensures a[i].val.Arr? ==> Listed(Some(a), key) == Some(Values(a[i].val.entries))
  {
    CoalesceFirst(a, i, StrKey(key));
  }
}
