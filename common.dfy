/** Values shared by the client-side caches and the backend documents:
    untyped JavaScript objects and Python dicts are maps from key to Value. */
module Common {

  datatype Option<+T> = None | Some(value: T)

  /** A JSON-like value held under a key of a JavaScript object or a Python dict. */
  datatype Value =
    | VUndefined           // JavaScript `undefined`: a key that is present but holds nothing
    | VNull                // JavaScript `null`, Python `None`
    | VBool(b: bool)
    | VNum(n: int)
    | VStr(s: string)
    | VList(items: seq<Value>)

  /** An untyped record: a JavaScript object or a Python dict. */
  type Record = map<string, Value>

  /** JavaScript truthiness (`undefined`, `null`, `false`, `0` and `""` are falsy). */
  predicate Truthy(v: Value) {
    match v
    case VUndefined => false
    case VNull => false
    case VBool(b) => b
    case VNum(n) => n != 0
    case VStr(s) => s != ""
    case VList(_) => true
  }

  /** Python truthiness (`None`, `False`, `0`, `""` and the empty list are falsy). */
  predicate PyTruthy(v: Value) {
    match v
    case VUndefined => false
    case VNull => false
    case VBool(b) => b
    case VNum(n) => n != 0
    case VStr(s) => s != ""
    case VList(items) => |items| > 0
  }

  /** `obj.key` in JavaScript: `undefined` when the key is absent. */
  function Prop(r: Record, k: string): Value {
    if k in r then r[k] else VUndefined
  }

  /** `d.get(key)` in Python: `None` when the key is absent. */
  function Get(r: Record, k: string): Value {
    if k in r then r[k] else VNull
  }

  /** `a || b` in JavaScript. */
  function Or(a: Value, b: Value): Value {
    if Truthy(a) then a else b
  }

  /** Decimal digits of a natural number. */
  function NatString(n: nat): (r: string)
    ensures |r| > 0 && forall k :: 0 <= k < |r| ==> '0' <= r[k] <= '9'
  {
    if n < 10 then ['0' + n as char] else NatString(n / 10) + ['0' + (n % 10) as char]
  }

  /** `String(v)` in JavaScript, as used for an object key or inside a template literal
      (an array joins its items with commas, writing `null` and `undefined` items as ""). */
  function JsString(v: Value): string {
    match v
    case VUndefined => "undefined"
    case VNull => "null"
    case VBool(b) => if b then "true" else "false"
    case VNum(n) => if n < 0 then "-" + NatString(-n) else NatString(n)
    case VStr(s) => s
    case VList(items) =>
      Commas(seq(|items|, k requires 0 <= k < |items| =>
        if items[k].VUndefined? || items[k].VNull? then "" else JsString(items[k])))
  }

  function Commas(parts: seq<string>): string {
    if |parts| == 0 then "" else if |parts| == 1 then parts[0] else parts[0] + "," + Commas(parts[1..])
  }

  /** The outcome of an asynchronous thunk: its payload, or the value it was rejected with. */
  datatype Outcome<+T> = Fulfilled(value: T) | Rejected(error: Rejection)

  datatype Rejection =
    | Status(code: int, message: string)   // `rejectWithValue({ status, message })`
    | Message(text: string)                // `rejectWithValue(message)`
    | Thrown(reason: string)               // an exception thrown out of the thunk

  /** A reply of the remote server, supplied to a thunk in place of the HTTP call. */
  datatype Reply<+T> = Ok(body: T) | Failure(message: string)

  /** `action.error.message || null` in a `rejected` reducer: Redux Toolkit reports a
      `rejectWithValue` rejection with the message "Rejected", a thrown error with its own message. */
  function ErrorMessage(r: Rejection): Option<string> {
    match r
    case Thrown(m) => if m == "" then None else Some(m)
    case _ => Some("Rejected")
  }

  /** `list.findIndex(p)`: the first index whose element satisfies `p`, or -1. */
  function FindIndex<T>(s: seq<T>, p: T -> bool): (i: int)
    ensures -1 <= i < |s|
    ensures i == -1 <==> forall k :: 0 <= k < |s| ==> !p(s[k])
    ensures 0 <= i ==> p(s[i]) && forall k :: 0 <= k < i ==> !p(s[k])
  {
    if |s| == 0 then -1
    else if p(s[0]) then 0
    else
      var j := FindIndex(s[1..], p);
      if j == -1 then -1 else j + 1
  }

  /** `list.filter(p)`, order preserved. */
  function Filter<T>(s: seq<T>, p: T -> bool): (r: seq<T>)
    ensures |r| <= |s|
    ensures forall k :: 0 <= k < |r| ==> r[k] in s && p(r[k])
    ensures forall k :: 0 <= k < |s| && p(s[k]) ==> s[k] in r
  {
    if |s| == 0 then [] else (if p(s[0]) then [s[0]] else []) + Filter(s[1..], p)
  }

  /** `r` is `s` with some elements left out, the rest in their order. */
  predicate Subsequence<T(==)>(r: seq<T>, s: seq<T>)
    decreases |s|
  {
    if |r| == 0 then true
    else if |s| == 0 then false
    else (r[0] == s[0] && Subsequence(r[1..], s[1..])) || Subsequence(r, s[1..])
  }

  /** The number of elements that satisfy `p`, repeats included. */
  function CountWhere<T>(s: seq<T>, p: T -> bool): (n: nat)
    ensures n <= |s|
  {
    if |s| == 0 then 0 else (if p(s[0]) then 1 else 0) + CountWhere(s[1..], p)
  }

  /** `r` holds exactly the elements of `s` that satisfy `p`, each as often as in `s` and in
      the order of `s`. */
  predicate KeptInOrder<T(==)>(r: seq<T>, s: seq<T>, p: T -> bool) {
    Subsequence(r, s) && (forall k :: 0 <= k < |r| ==> p(r[k])) && |r| == CountWhere(s, p)
  }

  /** A filter keeps exactly the satisfying elements, in order and with their repeats. */
  lemma {:induction false} FilterKeptInOrder<T>(s: seq<T>, p: T -> bool)
    ensures KeptInOrder(Filter(s, p), s, p)
    decreases |s|
  {
    if |s| > 0 {
      FilterKeptInOrder(s[1..], p);
      var rest := Filter(s[1..], p);
      if p(s[0]) {
        assert Filter(s, p) == [s[0]] + rest;
        assert ([s[0]] + rest)[1..] == rest;
      } else {
        assert Filter(s, p) == rest;
      }
    }
  }

  /** A subsequence of satisfying elements has at most as many elements as satisfy `p`. */
  lemma {:induction false} SubsequenceCount<T>(r: seq<T>, s: seq<T>, p: T -> bool)
    requires Subsequence(r, s) && forall k :: 0 <= k < |r| ==> p(r[k])
    ensures |r| <= CountWhere(s, p)
    decreases |s|
  {
    if |r| > 0 {
      if r[0] == s[0] && Subsequence(r[1..], s[1..]) {
        SubsequenceCount(r[1..], s[1..], p);
      } else {
        SubsequenceCount(r, s[1..], p);
      }
    }
  }

  /** The filter is the only sequence that keeps exactly the satisfying elements in order. */
  lemma {:induction false} KeptInOrderUnique<T>(r: seq<T>, s: seq<T>, p: T -> bool)
    requires KeptInOrder(r, s, p)
    ensures r == Filter(s, p)
    decreases |s|
  {
    if |r| == 0 {
      FilterKeptInOrder(s, p);
    } else if |s| > 0 {
      if r[0] == s[0] && Subsequence(r[1..], s[1..]) {
        KeptInOrderUnique(r[1..], s[1..], p);
        assert r == [s[0]] + r[1..];
      } else {
        if p(s[0]) {
          SubsequenceCount(r, s[1..], p);
        }
        KeptInOrderUnique(r, s[1..], p);
      }
    }
  }

  /** Filtering removes nothing exactly when every element satisfies the predicate. */
  lemma {:induction false} FilterKeepsAll<T>(s: seq<T>, p: T -> bool)
    ensures |Filter(s, p)| == |s| <==> forall k :: 0 <= k < |s| ==> p(s[k])
    ensures (forall k :: 0 <= k < |s| ==> p(s[k])) ==> Filter(s, p) == s
  {
    if |s| > 0 {
      FilterKeepsAll(s[1..], p);
      assert forall k :: 1 <= k < |s| ==> s[k] == s[1..][k - 1];
      if (forall k :: 0 <= k < |s| ==> p(s[k])) {
        assert forall k :: 0 <= k < |s[1..]| ==> p(s[1..][k]);
        assert s == [s[0]] + s[1..];
      }
      if |Filter(s, p)| == |s| {
        assert p(s[0]);
        assert forall k :: 0 <= k < |s[1..]| ==> p(s[1..][k]);
      }
    }
  }
}
