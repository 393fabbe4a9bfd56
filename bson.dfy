/**
 * The document model of the store: schemaless documents whose fields hold
 * scalar BSON values, MongoDB's comparison order on those values (used by
 * `$sort` and by `find(...).sort(...)`), and the numeric reading `$sum` uses.
 */
module Bson {

  /** The scalar values a JSON request body can carry into a document. */
  datatype Value = Null | Num(n: int) | Str(s: string) | Bool(b: bool)

  /** A stored document without its `_id`, which the collection keeps beside it. */
  type Doc = map<string, Value>

  /** Reading a missing field gives null: MongoDB groups and sorts a missing field as null. */
  function Get(d: Doc, field: string): Value
  {
    if field in d then d[field] else Null
  }

  /** The numeric contribution of a value to `$sum`, which ignores non-numeric values. */
  function Numeric(v: Value): int
  {
    if v.Num? then v.n else 0
  }

  /** MongoDB orders values of different types by type: null < numbers < strings < booleans. */
  function TypeRank(v: Value): nat
  {
    match v
    case Null => 0
    case Num(_) => 1
    case Str(_) => 2
    case Bool(_) => 3
  }

  /**
   * Strings compare code point by code point, which is the order of their UTF-8
   * bytes; a prefix comes first.
   */
  function StrLe(a: string, b: string): (r: bool)
    ensures a <= b ==> r
  {
    a == [] || (b != [] && (a[0] < b[0] || (a[0] == b[0] && StrLe(a[1..], b[1..]))))
  }

  /**
   * MongoDB's total preorder on values, as used by an ascending sort: every value
   * is ordered with itself, and values of different types go by type alone.
   */
  function ValueLe(a: Value, b: Value): (r: bool)
    ensures a == b ==> r
    ensures TypeRank(a) != TypeRank(b) ==> (r <==> TypeRank(a) < TypeRank(b))
  {
    match (a, b)
    case (Num(x), Num(y)) => x <= y
    case (Str(x), Str(y)) => StrLe(x, y)
    case (Bool(x), Bool(y)) => !x || y
    case _ => TypeRank(a) <= TypeRank(b)
  }

  lemma {:induction false} StrLeTotal(a: string, b: string)
    ensures StrLe(a, b) || StrLe(b, a)
  {
    if a != [] && b != [] && a[0] == b[0] {
      StrLeTotal(a[1..], b[1..]);
    }
  }

  /** Only equal strings are ordered both ways. */
  lemma {:induction false} StrLeAntisym(a: string, b: string)
    requires StrLe(a, b) && StrLe(b, a)
    ensures a == b
  {
    if a != [] && b != [] {
      StrLeAntisym(a[1..], b[1..]);
      assert a == [a[0]] + a[1..] && b == [b[0]] + b[1..];
    }
  }

  lemma {:induction false} StrLeTrans(a: string, b: string, c: string)
    requires StrLe(a, b) && StrLe(b, c)
    ensures StrLe(a, c)
  {
    if a != [] && b != [] && c != [] && a[0] == b[0] && b[0] == c[0] {
      StrLeTrans(a[1..], b[1..], c[1..]);
    }
  }

  /** Any two values are comparable, so a sort on a field is always defined. */
  lemma ValueLeTotal(a: Value, b: Value)
    ensures ValueLe(a, b) || ValueLe(b, a)
  {
    if a.Str? && b.Str? {
      StrLeTotal(a.s, b.s);
    }
  }

  /** Null, the value of a missing field, is the least value and the only one at its rank. */
  lemma NullLeast(v: Value)
    ensures ValueLe(Null, v)
    ensures ValueLe(v, Null) <==> v == Null
  {
  }

  lemma ValueLeTrans(a: Value, b: Value, c: Value)
    requires ValueLe(a, b) && ValueLe(b, c)
    ensures ValueLe(a, c)
  {
    if a.Str? && b.Str? && c.Str? {
      StrLeTrans(a.s, b.s, c.s);
    }
  }
}
