/** Firestore's tagged values turned back into ordinary JSON. */
module FirestoreValue {
  import opened Ordering
  import opened Wrappers

  datatype Member = Member(key: string, value: Json)

  /** An object's members are in key order, as the map that holds them keeps them. */
  datatype Json =
    | Null
    | Bool(b: bool)
    | Int(i: int)
    | Double(d: real)
    | Str(s: string)
    | Arr(items: seq<Json>)
    | Obj(members: seq<Member>)

  const LEAST_I64: int := -0x8000_0000_0000_0000
  const MOST_I64: int := 0x7fff_ffff_ffff_ffff

  predicate IsI64(i: int) {
    LEAST_I64 <= i <= MOST_I64
  }

  // ---- Decimal

  predicate IsDigit(c: char) {
    '0' <= c <= '9'
  }

  function DigitOf(c: char): (r: nat)
    requires IsDigit(c)
  {
    (c as int) - ('0' as int)
  }

  function CharOf(d: nat): (r: char)
    requires d < 10
    ensures IsDigit(r) && DigitOf(r) == d
  {
    (('0' as int) + d) as char
  }

  /** A run of digits, most significant first; `None` for anything else, the empty string included. */
  function Magnitude(text: string): (r: Option<nat>) {
    if text == "" then None
    else
      var front, last := text[..|text| - 1], text[|text| - 1];
      if !IsDigit(last) then None
      else if front == "" then Some(DigitOf(last))
      else
        match Magnitude(front)
        case None => None
        case Some(n) => Some(10 * n + DigitOf(last))
  }

  /** `text.parse::<i64>()`: an optional sign, then digits, in range. */
  function ParseI64(text: string): (r: Option<int>) {
    if text == "" then None
    else
      var negative := text[0] == '-';
      var digits := if negative || text[0] == '+' then text[1..] else text;
      match Magnitude(digits)
      case None => None
      case Some(n) =>
        var i := if negative then -(n as int) else n as int;
        if IsI64(i) then Some(i) else None
  }

  function Digits(n: nat): (r: string)
    ensures r != "" && IsDigit(r[0])
  {
    if n < 10 then [CharOf(n)] else Digits(n / 10) + [CharOf(n % 10)]
  }

  /** How an integer is written. */
  function Decimal(i: int): (r: string) {
    if i < 0 then "-" + Digits(-i) else Digits(i)
  }

  lemma {:induction false} DigitsReadBack(n: nat)
    ensures Magnitude(Digits(n)) == Some(n)
  {
    if n >= 10 {
      DigitsReadBack(n / 10);
      var front, last := Digits(n / 10), CharOf(n % 10);
      assert (front + [last])[..|front|] == front;
    }
  }

  /** Every integer's decimal form reads back as itself where it fits 64 bits, and as no integer where it does not. */
  lemma DecimalReadsBack(i: int)
    ensures ParseI64(Decimal(i)) == if IsI64(i) then Some(i) else None
  {
    if i < 0 {
      DigitsReadBack(-i);
      assert Decimal(i)[1..] == Digits(-i);
    } else {
      DigitsReadBack(i);
      assert Digits(i)[0] != '-' && Digits(i)[0] != '+';
    }
  }

  // ---- Decoding

  /** Where an object has a key; its length if it has not. */
  function Index(members: seq<Member>, key: string): (r: nat)
    ensures r <= |members|
    ensures r < |members| ==> members[r].key == key
    ensures forall k :: 0 <= k < r ==> members[k].key != key
  {
    if members == [] || members[0].key == key then 0 else 1 + Index(members[1..], key)
  }

  /** `Map::insert`: in key order, replacing what was there. */
  function Inserted(members: seq<Member>, key: string, value: Json): (r: seq<Member>) {
    if members == [] then [Member(key, value)]
    else if members[0].key == key then [Member(key, value)] + members[1..]
    else if Less(key, members[0].key) then [Member(key, value)] + members
    else [members[0]] + Inserted(members[1..], key, value)
  }

  function ToJson(fields: Json): (r: Json)
    decreases fields
  {
    if fields.Obj? then Obj(Fields(fields.members)) else Obj([])
  }

  function Fields(members: seq<Member>): (r: seq<Member>)
    decreases members
  {
    if members == [] then []
    else
      var last := members[|members| - 1];
      Inserted(Fields(members[..|members| - 1]), last.key, One(last.value))
  }

  function One(value: Json): (r: Json)
    decreases value
  {
    if !value.Obj? || value.members == [] then Null
    else
      var tag, inner := value.members[0].key, value.members[0].value;
      if tag == "nullValue" then Null
      else if tag == "integerValue" then
        if inner.Str? && ParseI64(inner.s).Some? then Int(ParseI64(inner.s).value) else inner
      else if tag == "arrayValue" then
        if !inner.Obj? then Arr([])
        else
          var at := Index(inner.members, "values");
          if at < |inner.members| && inner.members[at].value.Arr? then Arr(All(inner.members[at].value.items))
          else Arr([])
      else if tag == "mapValue" then
        if !inner.Obj? then Obj([])
        else
          var at := Index(inner.members, "fields");
          if at < |inner.members| then ToJson(inner.members[at].value) else Obj([])
      else inner
  }

  function All(items: seq<Json>): (r: seq<Json>)
    decreases items
  {
    if items == [] then [] else [One(items[0])] + All(items[1..])
  }

  /** `to_json`. */
  method Decode(fields: Json) returns (document: Json)
    ensures document == ToJson(fields)
  {
    if !fields.Obj? {
      return Obj([]);
    }
    var out: seq<Member> := [];
    var i := 0;
    while i < |fields.members|
      invariant 0 <= i <= |fields.members|
      invariant out == Fields(fields.members[..i])
    {
      var member := fields.members[i];
      assert fields.members[..i + 1][..i] == fields.members[..i];
      out := Inserted(out, member.key, One(member.value));
      i := i + 1;
    }
    assert fields.members[..i] == fields.members;
    document := Obj(out);
  }

  // ---- What Firestore writes

  /** The JSON a document can hold: keys once each and in order, integers of 64 bits. */
  predicate Valid(json: Json)
    decreases json
  {
    match json
    case Int(i) => IsI64(i)
    case Arr(items) => forall i :: 0 <= i < |items| ==> Valid(items[i])
    case Obj(members) => ValidMembers(members)
    case _ => true
  }

  predicate ValidMembers(members: seq<Member>)
    decreases members
  {
    && (forall i, j :: 0 <= i < j < |members| ==> Less(members[i].key, members[j].key))
    && (forall i :: 0 <= i < |members| ==> Valid(members[i].value))
  }

  /** The tagged form: empty arrays and maps may be written with or without their empty list. */
  predicate Encodes(json: Json, tagged: Json)
    decreases json
  {
    match json
    case Null => tagged == Tagged("nullValue", Null)
    case Bool(_) => tagged == Tagged("booleanValue", json)
    case Int(i) => tagged == Tagged("integerValue", Str(Decimal(i)))
    case Double(_) => tagged == Tagged("doubleValue", json)
    case Str(_) => tagged == Tagged("stringValue", json)
    case Arr(items) =>
      (items == [] && tagged == Tagged("arrayValue", Obj([])))
      || (IsTagged(tagged, "arrayValue", "values") && Within(tagged).Arr? && EncodesAll(items, Within(tagged).items))
    case Obj(members) =>
      (members == [] && tagged == Tagged("mapValue", Obj([])))
      || (IsTagged(tagged, "mapValue", "fields") && EncodesFields(members, Within(tagged)))
  }

  function Tagged(tag: string, inner: Json): (r: Json) {
    Obj([Member(tag, inner)])
  }

  /** `{tag: {key: ...}}` and nothing else. */
  predicate IsTagged(tagged: Json, tag: string, key: string) {
    && tagged.Obj? && |tagged.members| == 1 && tagged.members[0].key == tag
    && var inner := tagged.members[0].value;
       inner.Obj? && |inner.members| == 1 && inner.members[0].key == key
  }

  function Within(tagged: Json): (r: Json)
    requires tagged.Obj? && |tagged.members| == 1
    requires tagged.members[0].value.Obj? && |tagged.members[0].value.members| == 1
  {
    tagged.members[0].value.members[0].value
  }

  predicate EncodesAll(items: seq<Json>, tagged: seq<Json>)
    decreases items
  {
    |items| == |tagged| && forall i :: 0 <= i < |items| ==> Encodes(items[i], tagged[i])
  }

  predicate EncodesFields(members: seq<Member>, fields: Json)
    decreases members
  {
    && fields.Obj? && |fields.members| == |members|
    && forall i :: 0 <= i < |members| ==>
         fields.members[i].key == members[i].key && Encodes(members[i].value, fields.members[i].value)
  }

  // ---- Decoding undoes encoding

  /** A key above all the others goes to the end. */
  lemma {:induction false} InsertedLast(members: seq<Member>, key: string, value: Json)
    requires forall i :: 0 <= i < |members| ==> Less(members[i].key, key)
    ensures Inserted(members, key, value) == members + [Member(key, value)]
  {
    if members != [] {
      LessIsTotal(members[0].key, key);
      InsertedLast(members[1..], key, value);
    }
  }

  /** Decoding a tagged value gives back the value it was made from. */
  lemma {:induction false} OneUndoes(json: Json, tagged: Json)
    requires Valid(json) && Encodes(json, tagged)
    ensures One(tagged) == json
    decreases json
  {
    match json {
      case Int(i) => DecimalReadsBack(i);
      case Arr(items) =>
        if tagged != Tagged("arrayValue", Obj([])) {
          AllUndoes(items, Within(tagged).items);
        }
      case Obj(members) =>
        if tagged != Tagged("mapValue", Obj([])) {
          FieldsUndo(members, Within(tagged).members);
        }
      case _ =>
    }
  }

  lemma {:induction false} AllUndoes(items: seq<Json>, tagged: seq<Json>)
    requires (forall i :: 0 <= i < |items| ==> Valid(items[i])) && EncodesAll(items, tagged)
    ensures All(tagged) == items
    decreases items
  {
    if items != [] {
      OneUndoes(items[0], tagged[0]);
      AllUndoes(items[1..], tagged[1..]);
    }
  }

  lemma {:induction false} FieldsUndo(members: seq<Member>, fields: seq<Member>)
    requires ValidMembers(members) && EncodesFields(members, Obj(fields))
    ensures Fields(fields) == members
    decreases members
  {
    if members != [] {
      var n := |members| - 1;
      FieldsUndo(members[..n], fields[..n]);
      OneUndoes(members[n].value, fields[n].value);
      InsertedLast(members[..n], members[n].key, members[n].value);
      assert members[..n] + [members[n]] == members;
    }
  }

  /** A document read back is the document written, for every JSON object Firestore can hold. */
  lemma ToJsonUndoes(members: seq<Member>, fields: Json)
    requires Valid(Obj(members)) && EncodesFields(members, fields)
    ensures ToJson(fields) == Obj(members)
  {
    FieldsUndo(members, fields.members);
  }

  /** Every JSON value has a tagged form, so the above is about all of them. */
  function Encoded(json: Json): (r: Json)
    ensures Encodes(json, r)
    decreases json
  {
    match json
    case Null => Tagged("nullValue", Null)
    case Bool(_) => Tagged("booleanValue", json)
    case Int(i) => Tagged("integerValue", Str(Decimal(i)))
    case Double(_) => Tagged("doubleValue", json)
    case Str(_) => Tagged("stringValue", json)
    case Arr(items) => Tagged("arrayValue", Tagged("values", Arr(EncodedAll(items))))
    case Obj(members) => Tagged("mapValue", Tagged("fields", Obj(EncodedFields(members))))
  }

  function EncodedAll(items: seq<Json>): (r: seq<Json>)
    ensures EncodesAll(items, r)
    decreases items
  {
    if items == [] then [] else [Encoded(items[0])] + EncodedAll(items[1..])
  }

  function EncodedFields(members: seq<Member>): (r: seq<Member>)
    ensures EncodesFields(members, Obj(r))
    decreases members
  {
    if members == [] then []
    else [Member(members[0].key, Encoded(members[0].value))] + EncodedFields(members[1..])
  }

  /** The tags whose value is read as something other than what it holds. */
  const DECODED := {"nullValue", "integerValue", "arrayValue", "mapValue"}

  /**
   What nobody writes is read all the same: a value without a tag as null, one under any other tag as
   what it holds, an integer that is no integer as it stands, and an array or a map that holds none as
   an empty one.
   */
  lemma OddValuesRead(value: Json, tag: string)
    ensures !value.Obj? ==> One(value) == Null && ToJson(value) == Obj([])
    ensures One(Obj([])) == Null
    ensures tag !in DECODED ==> One(Tagged(tag, value)) == value
    ensures !value.Str? || ParseI64(value.s).None? ==> One(Tagged("integerValue", value)) == value
    ensures !value.Obj? || (forall k :: 0 <= k < |value.members| ==> value.members[k].key != "values") ==>
              One(Tagged("arrayValue", value)) == Arr([])
    ensures !value.Obj? || (forall k :: 0 <= k < |value.members| ==> value.members[k].key != "fields") ==>
              One(Tagged("mapValue", value)) == Obj([])
  {
  }

  /** An integer that does not fit 64 bits is kept as the text it was sent as; nothing is rounded. */
  lemma OutOfRangeStaysText(i: int)
    ensures One(Tagged("integerValue", Str(Decimal(i)))) == if IsI64(i) then Int(i) else Str(Decimal(i))
  {
    DecimalReadsBack(i);
  }
}
