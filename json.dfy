/**
 * The JSON documents the cache stores (`json.dumps` / `json.loads` in the
 * cache client). The text form is replaced by a stream of tokens in prefix
 * order; arrays and objects announce how many children follow.
 */
module Json {
  import opened Common

  datatype Json =
    | JNull                       // also Python's None
    | JInt(i: int)
    | JStr(s: string)
    | JArr(items: seq<Json>)
    | JObj(fields: seq<Field>)

  datatype Field = Field(key: string, val: Json)

  datatype Token =
    | TNull
    | TInt(i: int)
    | TStr(s: string)
    | TArr(n: nat)
    | TObj(n: nat)
    | TKey(k: string)

  /**
   * Python's truth test on a decoded value (`if cached_books:`): a value is
   * false exactly when it is None, 0, "", [] or {}; a list is true exactly
   * when it has an element.
   */
  function Truthy(v: Json): (b: bool)
    ensures !b <==> v in [JNull, JInt(0), JStr(""), JArr([]), JObj([])]
    ensures v.JArr? ==> (b <==> |v.items| > 0)
  {
    match v
    case JNull => false
    case JInt(i) => i != 0
    case JStr(s) => s != []
    case JArr(items) => items != []
    case JObj(fields) => fields != []
  }

  /** `json.dumps`. */
  function Encode(v: Json): (ts: seq<Token>)
    ensures ts != []
    decreases v, 1
  {
    match v
    case JNull => [TNull]
    case JInt(i) => [TInt(i)]
    case JStr(s) => [TStr(s)]
    case JArr(items) => [TArr(|items|)] + EncodeItems(items)
    case JObj(fields) => [TObj(|fields|)] + EncodeFields(fields)
  }

  function EncodeItems(items: seq<Json>): seq<Token>
    decreases items, 0
  {
    if items == [] then [] else Encode(items[0]) + EncodeItems(items[1..])
  }

  function EncodeFields(fields: seq<Field>): seq<Token>
    decreases fields, 0
  {
    if fields == [] then []
    else [TKey(fields[0].key)] + Encode(fields[0].val) + EncodeFields(fields[1..])
  }

  /** Reads one value off the front of `ts`; the rest is what follows it. */
  function Parse(ts: seq<Token>): (r: Option<(Json, seq<Token>)>)
    ensures r.Some? ==> |r.value.1| < |ts|
    decreases |ts|, 0
  {
    if ts == [] then None
    else match ts[0]
      case TNull => Some((JNull, ts[1..]))
      case TInt(i) => Some((JInt(i), ts[1..]))
      case TStr(s) => Some((JStr(s), ts[1..]))
      case TArr(n) =>
        (match ParseItems(n, ts[1..])
         case None => None
         case Some((items, rest)) => Some((JArr(items), rest)))
      case TObj(n) =>
        (match ParseFields(n, ts[1..])
         case None => None
         case Some((fields, rest)) => Some((JObj(fields), rest)))
      case TKey(_) => None
  }

  function ParseItems(n: nat, ts: seq<Token>): (r: Option<(seq<Json>, seq<Token>)>)
    ensures r.Some? ==> |r.value.1| <= |ts|
    decreases |ts|, 1, n
  {
    if n == 0 then Some(([], ts))
    else match Parse(ts)
      case None => None
      case Some((v, rest)) =>
        (match ParseItems(n - 1, rest)
         case None => None
         case Some((vs, rest')) => Some(([v] + vs, rest')))
  }

  function ParseFields(n: nat, ts: seq<Token>): (r: Option<(seq<Field>, seq<Token>)>)
    ensures r.Some? ==> |r.value.1| <= |ts|
    decreases |ts|, 1, n
  {
    if n == 0 then Some(([], ts))
    else if ts == [] || !ts[0].TKey? then None
    else match Parse(ts[1..])
      case None => None
      case Some((v, rest)) =>
        (match ParseFields(n - 1, rest)
         case None => None
         case Some((fs, rest')) => Some(([Field(ts[0].k, v)] + fs, rest')))
  }

  /**
   * `json.loads`: one whole document, nothing after it; `None` where Python
   * raises. What it accepts is exactly the encoding of what it returns.
   */
  function Decode(ts: seq<Token>): (r: Option<Json>)
    ensures r.Some? ==> Encode(r.value) == ts
  {
    ParseIsPrefix(ts);
    match Parse(ts)
    case Some((v, rest)) => if rest == [] then Some(v) else None
    case None => None
  }

  lemma {:induction false} ParseEncode(v: Json, rest: seq<Token>)
    ensures Parse(Encode(v) + rest) == Some((v, rest))
    decreases v, 1
  {
    var ts := Encode(v) + rest;
    match v
    case JNull =>
    case JInt(_) =>
    case JStr(_) =>
    case JArr(items) =>
      assert ts[0] == TArr(|items|) && ts[1..] == EncodeItems(items) + rest;
      ParseItemsEncode(items, rest);
    case JObj(fields) =>
      assert ts[0] == TObj(|fields|) && ts[1..] == EncodeFields(fields) + rest;
      ParseFieldsEncode(fields, rest);
  }

  lemma {:induction false} ParseItemsEncode(items: seq<Json>, rest: seq<Token>)
    ensures ParseItems(|items|, EncodeItems(items) + rest) == Some((items, rest))
    decreases items, 0
  {
    if items != [] {
      var tail := EncodeItems(items[1..]) + rest;
      assert EncodeItems(items) + rest == Encode(items[0]) + tail;
      ParseEncode(items[0], tail);
      ParseItemsEncode(items[1..], rest);
      assert |items[1..]| == |items| - 1;
      assert ParseItems(|items|, EncodeItems(items) + rest)
          == Some(([items[0]] + items[1..], rest));
      assert [items[0]] + items[1..] == items;
    } else {
      assert EncodeItems(items) + rest == rest;
    }
  }

  lemma {:induction false} ParseFieldsEncode(fields: seq<Field>, rest: seq<Token>)
    ensures ParseFields(|fields|, EncodeFields(fields) + rest) == Some((fields, rest))
    decreases fields, 0
  {
    if fields != [] {
      var tail := EncodeFields(fields[1..]) + rest;
      var ts := EncodeFields(fields) + rest;
      assert ts == [TKey(fields[0].key)] + (Encode(fields[0].val) + tail);
      assert ts[0] == TKey(fields[0].key) && ts[1..] == Encode(fields[0].val) + tail;
      ParseEncode(fields[0].val, tail);
      ParseFieldsEncode(fields[1..], rest);
      assert |fields[1..]| == |fields| - 1;
      assert ParseFields(|fields|, ts)
          == Some(([Field(fields[0].key, fields[0].val)] + fields[1..], rest));
      assert [Field(fields[0].key, fields[0].val)] + fields[1..] == fields;
    } else {
      assert EncodeFields(fields) + rest == rest;
    }
  }

  /** What `Parse` reads off the front of `ts` is the encoding of the value it returns. */
  lemma {:induction false} ParseIsPrefix(ts: seq<Token>)
    ensures Parse(ts).Some? ==> ts == Encode(Parse(ts).value.0) + Parse(ts).value.1
    decreases |ts|, 0
  {
    if ts != [] {
      match ts[0]
      case TArr(n) =>
        ParseItemsIsPrefix(n, ts[1..]);
        assert ts == [ts[0]] + ts[1..];
      case TObj(n) =>
        ParseFieldsIsPrefix(n, ts[1..]);
        assert ts == [ts[0]] + ts[1..];
      case _ =>
        assert ts == [ts[0]] + ts[1..];
    }
  }

  /** `ParseItems` reads exactly `n` values, and what it reads is their encodings. */
  lemma {:induction false} ParseItemsIsPrefix(n: nat, ts: seq<Token>)
    ensures ParseItems(n, ts).Some? ==>
              |ParseItems(n, ts).value.0| == n
              && ts == EncodeItems(ParseItems(n, ts).value.0) + ParseItems(n, ts).value.1
    decreases |ts|, 1, n
  {
    if n != 0 && Parse(ts).Some? {
      var (v, rest) := Parse(ts).value;
      ParseIsPrefix(ts);
      ParseItemsIsPrefix(n - 1, rest);
      if ParseItems(n - 1, rest).Some? {
        var (vs, rest') := ParseItems(n - 1, rest).value;
        var items := [v] + vs;
        assert items[0] == v && items[1..] == vs;
        assert ts == Encode(v) + (EncodeItems(vs) + rest');
      }
    }
  }

  /** `ParseFields` reads exactly `n` pairs, and what it reads is their encodings. */
  lemma {:induction false} ParseFieldsIsPrefix(n: nat, ts: seq<Token>)
    ensures ParseFields(n, ts).Some? ==>
              |ParseFields(n, ts).value.0| == n
              && ts == EncodeFields(ParseFields(n, ts).value.0) + ParseFields(n, ts).value.1
    decreases |ts|, 1, n
  {
    if n != 0 && ts != [] && ts[0].TKey? && Parse(ts[1..]).Some? {
      var (v, rest) := Parse(ts[1..]).value;
      ParseIsPrefix(ts[1..]);
      ParseFieldsIsPrefix(n - 1, rest);
      if ParseFields(n - 1, rest).Some? {
        var (fs, rest') := ParseFields(n - 1, rest).value;
        var f := Field(ts[0].k, v);
        assert ParseFields(n, ts) == Some(([f] + fs, rest'));
        EncodeFieldsCons(f, fs, rest');
        assert ts == [ts[0]] + ts[1..];
      }
    }
  }

  /** The encoding of a field list, followed by `rest`, taken apart at its first field. */
  lemma EncodeFieldsCons(f: Field, fs: seq<Field>, rest: seq<Token>)
    ensures EncodeFields([f] + fs) + rest == [TKey(f.key)] + (Encode(f.val) + (EncodeFields(fs) + rest))
  {
    assert ([f] + fs)[0] == f && ([f] + fs)[1..] == fs;
  }

  /** A token stream decodes to `v` exactly when it is the encoding of `v`. */
  lemma DecodeIffEncode(ts: seq<Token>, v: Json)
    ensures Decode(ts) == Some(v) <==> ts == Encode(v)
  {
    if ts == Encode(v) {
      DecodeEncode(v);
    }
  }

  /** What `json.dumps` writes, `json.loads` reads back unchanged. */
  lemma DecodeEncode(v: Json)
    ensures Decode(Encode(v)) == Some(v)
  {
    ParseEncode(v, []);
    assert Encode(v) + [] == Encode(v);
  }
}
