/** Parsed JSON, as the normalizers meet it. */
module Json {
  import opened Options

  // A number carries the text that String(number) gives.
  datatype Value =
    | Null
    | Bool(b: bool)
    | Num(number: real, text: string)
    | Str(s: string)
    | Arr(items: seq<Value>)
    | Obj(fields: map<string, Value>)

  // value[key]; None is undefined.  No key asked for here is one that every array or string has.
  function Get(v: Value, key: string): Option<Value> {
    if v.Obj? && key in v.fields then Some(v.fields[key]) else None
  }

  // String(value)
  function Text(v: Value): string {
    match v
    case Null => "null"
    case Bool(b) => if b then "true" else "false"
    case Num(_, text) => text
    case Str(s) => s
    case Arr(items) => Joined(items)
    case Obj(_) => "[object Object]"
  }

  function Joined(items: seq<Value>): string {
    if |items| == 0 then ""
    else
      var first := if items[0].Null? then "" else Text(items[0]);
      if |items| == 1 then first else first + "," + Joined(items[1..])
  }

  function Texts(items: seq<Value>): (r: seq<string>)
    ensures |r| == |items|
  {
    if |items| == 0 then [] else [Text(items[0])] + Texts(items[1..])
  }

  function Strings(texts: seq<string>): (r: seq<Value>)
    ensures |r| == |texts|
  {
    if |texts| == 0 then [] else [Str(texts[0])] + Strings(texts[1..])
  }

  lemma {:induction false} TextsOfStrings(texts: seq<string>)
    ensures Texts(Strings(texts)) == texts
  {
    if |texts| > 0 {
      TextsOfStrings(texts[1..]);
      assert Strings(texts)[1..] == Strings(texts[1..]);
    }
  }

  /** A list is printed as its values with commas between them, null as nothing. */
  lemma {:induction false} ListText(items: seq<Value>, more: seq<Value>)
    ensures Text(Arr([])) == ""
    ensures |items| == 1 ==> Text(Arr(items)) == if items[0] == Null then "" else Text(items[0])
    ensures |items| > 0 && |more| > 0 ==> Text(Arr(items + more)) == Text(Arr(items)) + ("," + Text(Arr(more)))
  {
    if |items| == 1 && |more| > 0 {
      assert (items + more)[0] == items[0] && (items + more)[1..] == more;
    } else if |items| > 1 && |more| > 0 {
      assert (items + more)[0] == items[0] && (items + more)[1..] == items[1..] + more;
      ListText(items[1..], more);
    }
  }

  /** The text of every value of a list, in order. */
  lemma {:induction false} TextsAt(items: seq<Value>, i: nat)
    requires i < |items|
    ensures Texts(items)[i] == Text(items[i])
  {
    if i > 0 { TextsAt(items[1..], i - 1); }
  }

  lemma PlainText(s: string, x: real, fields: map<string, Value>)
    ensures Text(Null) == "null" && Text(Bool(true)) == "true" && Text(Bool(false)) == "false"
    ensures Text(Str(s)) == s && Text(Num(x, s)) == s && Text(Obj(fields)) == "[object Object]"
  {
  }
}
