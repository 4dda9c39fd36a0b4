/** Parsed JSON. An object keeps its members in text order, duplicates included; the
    dictionary read from it holds, for each key, the last value written for it. */
module JsonValues {

  /** The parser also accepts NaN and the infinities. */
  datatype Float = Finite(r: real) | NotFinite(literal: string)

  datatype Member = Member(key: string, value: Json)

  datatype Json =
    | JNull
    | JBool(b: bool)
    | JInt(i: int)
    | JFloat(f: Float)
    | JString(s: string)
    | JArray(items: seq<Json>)
    | JObject(members: seq<Member>)

  datatype Kind = ObjectKind | ArrayKind | StringKind | IntegerKind | NumberKind | BooleanKind | NullKind | MixedKind

  function KindOf(v: Json): Kind {
    match v
    case JNull => NullKind
    case JBool(_) => BooleanKind
    case JInt(_) => IntegerKind
    case JFloat(_) => NumberKind
    case JString(_) => StringKind
    case JArray(_) => ArrayKind
    case JObject(_) => ObjectKind
  }

  predicate IsContainer(v: Json) { v.JArray? || v.JObject? }

  function Keys(members: seq<Member>): set<string> {
    set m | m in members :: m.key
  }

  function Size(v: Json): nat {
    match v
    case JArray(items) => 1 + SizeOfItems(items)
    case JObject(members) => 1 + SizeOfMembers(members)
    case _ => 1
  }

  function SizeOfItems(items: seq<Json>): nat {
    if items == [] then 0
    else SizeOfItems(items[..|items| - 1]) + Size(items[|items| - 1])
  }

  function SizeOfMembers(members: seq<Member>): nat {
    if members == [] then 0
    else
      var last := members[|members| - 1];
      SizeOfMembers(members[..|members| - 1]) + Size(last.value)
  }

  function Lookup(members: seq<Member>, key: string): (v: Json)
    requires key in Keys(members)
    ensures exists m :: m in members && m.key == key && m.value == v
    ensures Size(v) <= SizeOfMembers(members)
    decreases |members|
  {
    var n := |members| - 1;
    if members[n].key == key then members[n].value
    else
      assert key in Keys(members[..n]);
      Lookup(members[..n], key)
  }

  /** Of several members with one key, the last is the one that is read. */
  lemma {:induction false} LastMemberWins(members: seq<Member>, k: nat)
    requires k < |members| && forall j :: k < j < |members| ==> members[j].key != members[k].key
    ensures members[k].key in Keys(members) && Lookup(members, members[k].key) == members[k].value
    decreases |members|
  {
    var n := |members| - 1;
    if k < n {
      LastMemberWins(members[..n], k);
    }
  }

  lemma {:induction false} ItemIsSmaller(items: seq<Json>, k: nat)
    requires k < |items|
    ensures Size(items[k]) <= SizeOfItems(items)
    decreases |items|
  {
    var n := |items| - 1;
    if k < n {
      ItemIsSmaller(items[..n], k);
    }
  }
}
