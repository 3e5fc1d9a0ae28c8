// JSON documents as an algebraic datatype. Numbers are kept apart into the integers that
// fit a machine word and everything else; rendering and float parsing stay abstract.
module Json {
  import opened Words

  type Integer = i: int | I64_MIN <= i <= MAX_U64 witness 0

  datatype Number = Integral(i: Integer) | Floating(f: real)

  datatype Value =
    | Null
    | Bool(b: bool)
    | Num(n: Number)
    | Str(s: string)
    | Arr(items: seq<Value>)
    | Obj(fields: map<string, Value>)

  type Scope = map<string, Value>

  /** The strings of a list, in order; everything else is dropped. */
  function Strings(items: seq<Value>): seq<string> {
    if items == [] then []
    else (if items[0].Str? then [items[0].s] else []) + Strings(items[1..])
  }

  lemma {:induction false} StringsHold(items: seq<Value>, s: string)
    ensures s in Strings(items) <==> Str(s) in items
  {
    if items != [] {
      StringsHold(items[1..], s);
      assert items == [items[0]] + items[1..];
    }
  }
}
