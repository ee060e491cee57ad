/**
 * The JavaScript values a generated service method can be called with,
 * the `typeof` operator on them, and the string rendering that
 * `Array.prototype.join` applies to each element.
 */
module JsValues {

  datatype Option<+T> = None | Some(value: T)

  /** A positional argument of a generated method. `Obj` stands for any
      plain object (a request body or a query-parameter bag). */
  datatype Arg =
    | Str(s: string)
    | Num(n: int)
    | Bool(b: bool)
    | Obj(fields: map<string, string>)
    | Null
    | Undef

  /** The answers of JavaScript's `typeof` that these values produce. */
  datatype JsType = TString | TNumber | TBoolean | TObject | TUndefined

  /** `typeof a`; note that `typeof null` is `'object'`. */
  function TypeOf(a: Arg): (t: JsType)
    ensures t == TObject <==> (a.Obj? || a.Null?)
    ensures t == TUndefined <==> a.Undef?
  {
    match a
    case Str(_) => TString
    case Num(_) => TNumber
    case Bool(_) => TBoolean
    case Obj(_) => TObject
    case Null => TObject
    case Undef => TUndefined
  }

  predicate IsObject(a: Arg) {
    TypeOf(a) == TObject
  }

  /** JavaScript truthiness: `null`, `undefined`, `false`, `0` and the
      empty string are falsy, every object is truthy. */
  predicate Truthy(a: Arg) {
    match a
    case Str(s) => s != ""
    case Num(n) => n != 0
    case Bool(b) => b
    case Obj(_) => true
    case Null => false
    case Undef => false
  }

  /** `args[i]` on an `arguments` object: an index outside the list,
      including a negative one, reads `undefined`. */
  function ArgAt(args: seq<Arg>, i: int): (a: Arg)
    ensures 0 <= i < |args| ==> a == args[i]
    ensures !(0 <= i < |args|) ==> a == Undef
  {
    if 0 <= i < |args| then args[i] else Undef
  }

  function DigitChar(d: nat): (c: char)
    requires d < 10
    ensures '0' <= c <= '9'
  {
    "0123456789"[d]
  }

  /** Decimal notation of a natural number, most significant digit first. */
  function NatToDecimal(n: nat): (s: string)
    ensures |s| > 0
    ensures forall i :: 0 <= i < |s| ==> '0' <= s[i] <= '9'
  {
    if n < 10 then [DigitChar(n)] else NatToDecimal(n / 10) + [DigitChar(n % 10)]
  }

  /** How `join` renders one element: `null` and `undefined` become the
      empty string and a plain object becomes `[object Object]`. */
  function ToText(a: Arg): string {
    match a
    case Str(s) => s
    case Num(n) => if n < 0 then "-" + NatToDecimal(-n) else NatToDecimal(n)
    case Bool(b) => if b then "true" else "false"
    case Obj(_) => "[object Object]"
    case Null => ""
    case Undef => ""
  }

  function Texts(nodes: seq<Arg>): (r: seq<string>)
    ensures |r| == |nodes|
    ensures forall i :: 0 <= i < |nodes| ==> r[i] == ToText(nodes[i])
  {
    if nodes == [] then [] else Texts(nodes[..|nodes| - 1]) + [ToText(nodes[|nodes| - 1])]
  }

  /** `parts.join(sep)`: the parts in order with one separator between
      neighbours and none at either end. */
  function Join(parts: seq<string>, sep: char): string {
    if |parts| == 0 then ""
    else if |parts| == 1 then parts[0]
    else Join(parts[..|parts| - 1], sep) + [sep] + parts[|parts| - 1]
  }

  /** `s.split(sep)`: the maximal runs of characters other than `sep`,
      in order; there is always at least one (possibly empty) part. */
  function Split(s: string, sep: char): (parts: seq<string>)
    ensures |parts| > 0
    ensures forall i :: 0 <= i < |parts| ==> sep !in parts[i]
  {
    if s == [] then [""]
    else
      var init := Split(s[..|s| - 1], sep);
      var c := s[|s| - 1];
      if c == sep then init + [""]
      else init[..|init| - 1] + [init[|init| - 1] + [c]]
  }

  /** Joining the parts of a split with the same separator gives back
      the original string. */
  lemma {:induction false} JoinSplit(s: string, sep: char)
    ensures Join(Split(s, sep), sep) == s
  {
    if s != [] {
      var init := Split(s[..|s| - 1], sep);
      var c := s[|s| - 1];
      JoinSplit(s[..|s| - 1], sep);
      assert s == s[..|s| - 1] + [c];
      if c == sep {
        assert (init + [""])[..|init|] == init;
      } else {
        var parts := init[..|init| - 1] + [init[|init| - 1] + [c]];
        assert parts[..|parts| - 1] == init[..|init| - 1];
        if |init| > 1 {
          assert init == init[..|init| - 1] + [init[|init| - 1]];
          assert Join(init, sep) == Join(init[..|init| - 1], sep) + [sep] + init[|init| - 1];
        }
      }
    }
  }
}
