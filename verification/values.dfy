/**
 Ruby values as they flow through the gem: parameter hashes, result frames,
 decoded log payloads, and the `==`, `to_s`, `inspect` and `rjust`
 behaviour the gem relies on when it compares or prints them.
 */
module Values {
  import opened Wrappers

  /** One Ruby object. A `Hash` keeps its insertion order, as Ruby's does.
      `Exe` is a command object: its class name, its `parent` and `test`
      attributes, and the other attributes assigned to it. */
  datatype Value =
    | Nil
    | Bool(b: bool)
    | Int(i: int)
    | Str(s: string)
    | Sym(name: string)
    | Cls(className: string)
    | Arr(items: seq<Value>)
    | Hash(entries: seq<Entry>)
    | Exe(cls: string, parent: Value, test: Value, fields: seq<Entry>)

  /** One key/value pair of a Ruby Hash. */
  datatype Entry = Entry(key: Value, val: Value)

  /** Ruby truthiness: only `nil` and `false` are falsy. */
  predicate Truthy(v: Value) {
    !(v.Nil? || v == Bool(false))
  }

  // ---------------------------------------------------------------------
  // Hashes as insertion-ordered association lists
  // ---------------------------------------------------------------------

  /** Position of the first entry whose key is `k`. */
  function IndexOf(es: seq<Entry>, k: Value): (r: Option<nat>)
    ensures r.Some? ==> r.value < |es| && es[r.value].key == k
    ensures r.Some? ==> forall j :: 0 <= j < r.value ==> es[j].key != k
    ensures r.None? ==> forall j :: 0 <= j < |es| ==> es[j].key != k
  {
    if |es| == 0 then None
    else if es[0].key == k then Some(0)
    else match IndexOf(es[1..], k)
      case None => None
      case Some(j) => Some(j + 1)
  }

  /** The keys of a hash, in insertion order (`h.keys`). */
  function Keys(es: seq<Entry>): seq<Value> {
    seq(|es|, i requires 0 <= i < |es| => es[i].key)
  }

  /** `h.key?(k)` */
  predicate HasKey(es: seq<Entry>, k: Value) {
    IndexOf(es, k).Some?
  }

  /** `h[k]`: the stored value, or nil when the key is absent. */
  function Lookup(es: seq<Entry>, k: Value): Value {
    match IndexOf(es, k)
    case Some(i) => es[i].val
    case None => Nil
  }

  /** Two association lists with the same key sequence find every key at the
      same position. */
  lemma IndexOfSameKeys(es: seq<Entry>, fs: seq<Entry>, k: Value)
    requires Keys(es) == Keys(fs)
    ensures IndexOf(es, k) == IndexOf(fs, k)
  {
    assert |es| == |Keys(es)| == |fs|;
    forall j | 0 <= j < |es| ensures es[j].key == fs[j].key {
      assert Keys(es)[j] == Keys(fs)[j];
    }
  }

  /** Appending an entry does not move any key already present. */
  lemma IndexOfAppend(es: seq<Entry>, e: Entry, k: Value)
    ensures IndexOf(es + [e], k) ==
      (if HasKey(es, k) then IndexOf(es, k)
       else if e.key == k then Some(|es|) else None)
  {
    var r := IndexOf(es + [e], k);
    if HasKey(es, k) {
      var i := IndexOf(es, k).value;
      assert (es + [e])[i].key == k;
    } else if e.key == k {
      assert (es + [e])[|es|].key == k;
    } else {
      assert forall j :: 0 <= j < |es| + 1 ==> (es + [e])[j].key != k by {
        forall j | 0 <= j < |es| + 1 ensures (es + [e])[j].key != k {
          if j < |es| { assert (es + [e])[j] == es[j]; }
        }
      }
    }
  }

  /** `h[k] = v`: an existing key keeps its position and gets the new value;
      a new key goes last. */
  function Store(es: seq<Entry>, k: Value, v: Value): (r: seq<Entry>)
    ensures Lookup(r, k) == v
    ensures forall j :: j != k ==> Lookup(r, j) == Lookup(es, j)
    ensures forall j :: HasKey(r, j) <==> HasKey(es, j) || j == k
    ensures HasKey(es, k) ==> Keys(r) == Keys(es)
    ensures !HasKey(es, k) ==> Keys(r) == Keys(es) + [k]
  {
    match IndexOf(es, k)
    case Some(i) =>
      var r := es[i := Entry(k, v)];
      assert Keys(r) == Keys(es);
      assert forall j :: IndexOf(r, j) == IndexOf(es, j) by {
        forall j ensures IndexOf(r, j) == IndexOf(es, j) {
          IndexOfSameKeys(r, es, j);
        }
      }
      r
    case None =>
      var r := es + [Entry(k, v)];
      assert forall j :: IndexOf(r, j) == (if HasKey(es, j) then IndexOf(es, j)
                                         else if j == k then Some(|es|) else None) by {
        forall j ensures IndexOf(r, j) == (if HasKey(es, j) then IndexOf(es, j)
                                          else if j == k then Some(|es|) else None) {
          IndexOfAppend(es, Entry(k, v), j);
        }
      }
      r
  }

  /** The two cases of `Store`, as equations: replace in place, or append. */
  lemma StoreCases(es: seq<Entry>, k: Value, v: Value)
    ensures IndexOf(es, k).Some? ==> Store(es, k, v) == es[IndexOf(es, k).value := Entry(k, v)]
    ensures IndexOf(es, k).None? ==> Store(es, k, v) == es + [Entry(k, v)]
  {
  }

  /** A hash literal built by storing `pairs` one after another. */
  function FromPairs(pairs: seq<Entry>): seq<Entry>
  {
    if |pairs| == 0 then []
    else Store(FromPairs(pairs[..|pairs| - 1]), pairs[|pairs| - 1].key, pairs[|pairs| - 1].val)
  }

  /** No key occurs twice. */
  predicate DistinctKeys(es: seq<Entry>) {
    forall i, j :: 0 <= i < j < |es| ==> es[i].key != es[j].key
  }

  /** `xs` is `ys` with some elements left out and the rest in their order,
      as `Hash#reject` and `Array#select` leave a collection. */
  predicate SubsequenceOf<T(==)>(xs: seq<T>, ys: seq<T>)
    decreases |ys|
  {
    || |xs| == 0
    || (&& |ys| > 0
        && ((xs[0] == ys[0] && SubsequenceOf(xs[1..], ys[1..])) || SubsequenceOf(xs, ys[1..])))
  }

  // ---------------------------------------------------------------------
  // Ruby equality
  // ---------------------------------------------------------------------

  /** Ruby `==`: hashes compare key by key without regard to order, arrays
      element-wise, everything else by content. */
  predicate Equal(a: Value, b: Value)
    decreases a
  {
    match a
    case Arr(xs) =>
      && b.Arr?
      && |xs| == |b.items|
      && forall i :: 0 <= i < |xs| ==> Equal(xs[i], b.items[i])
    case Hash(xs) =>
      && b.Hash?
      && (forall i :: 0 <= i < |xs| ==> HasKey(b.entries, xs[i].key))
      && (forall j :: 0 <= j < |b.entries| ==> HasKey(xs, b.entries[j].key))
      && (forall i :: 0 <= i < |xs| && IndexOf(xs, xs[i].key) == Some(i) ==>
            Equal(xs[i].val, Lookup(b.entries, xs[i].key)))
    case _ => a == b
  }

  /** Every value equals itself under Ruby `==`. */
  lemma {:induction false} EqualReflexive(a: Value)
    ensures Equal(a, a)
    decreases a
  {
    match a
    case Arr(xs) =>
      forall i | 0 <= i < |xs| ensures Equal(xs[i], xs[i]) {
        EqualReflexive(xs[i]);
      }
    case Hash(xs) =>
      forall i | 0 <= i < |xs| && IndexOf(xs, xs[i].key) == Some(i)
        ensures Equal(xs[i].val, Lookup(xs, xs[i].key))
      {
        EqualReflexive(xs[i].val);
      }
    case _ =>
  }

  // ---------------------------------------------------------------------
  // Printing: to_s, inspect, rjust
  // ---------------------------------------------------------------------

  function DigitChar(d: nat): char
    requires d < 10
  {
    "0123456789"[d]
  }

  /** Decimal rendering of a natural number (`Integer#to_s`). */
  function NatToString(n: nat): string
    decreases n
  {
    if n < 10 then [DigitChar(n)] else NatToString(n / 10) + [DigitChar(n % 10)]
  }

  function IntToString(i: int): string {
    if i < 0 then "-" + NatToString(-i) else NatToString(i)
  }

  function Join(parts: seq<string>, sep: string): string
    decreases |parts|
  {
    if |parts| == 0 then ""
    else if |parts| == 1 then parts[0]
    else parts[0] + sep + Join(parts[1..], sep)
  }

  /** `inspect`, in the pre-3.4 Ruby spelling of hashes (`{:a=>1}`). */
  function Inspect(v: Value): string
    decreases v
  {
    match v
    case Nil => "nil"
    case Bool(b) => if b then "true" else "false"
    case Int(i) => IntToString(i)
    case Str(s) => "\"" + s + "\""
    case Sym(n) => ":" + n
    case Cls(n) => n
    case Arr(xs) =>
      "[" + Join(seq(|xs|, i requires 0 <= i < |xs| => Inspect(xs[i])), ", ") + "]"
    case Hash(es) =>
      "{" + Join(seq(|es|, i requires 0 <= i < |es| =>
                       Inspect(es[i].key) + "=>" + Inspect(es[i].val)), ", ") + "}"
    case Exe(c, _, _, _) => "#<" + c + ">"
  }

  /** `to_s`, which string interpolation uses. */
  function Show(v: Value): string {
    match v
    case Nil => ""
    case Str(s) => s
    case Sym(n) => n
    case _ => Inspect(v)
  }

  function Spaces(n: nat): (r: string)
    ensures |r| == n
    ensures forall i :: 0 <= i < n ==> r[i] == ' '
  {
    seq(n, _ => ' ')
  }

  /** `s.rjust(width)`: left-pads `s` with spaces up to `width` characters,
      and leaves it alone when it is already that long. */
  function RJust(s: string, width: int): string {
    if width <= |s| then s else Spaces(width - |s|) + s
  }

  /** Number of spaces a line starts with. */
  function LeadingSpaces(s: string): nat
    decreases |s|
  {
    if |s| > 0 && s[0] == ' ' then 1 + LeadingSpaces(s[1..]) else 0
  }

  /** A line does not start with a space (so its indentation is unambiguous). */
  predicate Unpadded(s: string) {
    |s| == 0 || s[0] != ' '
  }

  /** Padding is recoverable: counting the leading spaces of `n` spaces
      followed by an unpadded text gives back `n`. */
  lemma {:induction false} LeadingSpacesOfPadding(n: nat, s: string)
    requires Unpadded(s)
    ensures LeadingSpaces(Spaces(n) + s) == n
    ensures (Spaces(n) + s)[n..] == s
    decreases n
  {
    if n > 0 {
      assert (Spaces(n) + s)[1..] == Spaces(n - 1) + s;
      LeadingSpacesOfPadding(n - 1, s);
    } else {
      assert Spaces(n) + s == s;
    }
  }

  /** `rjust` pads with exactly `width - |s|` spaces (none when `s` is
      already wide enough), and the original text follows unchanged. */
  lemma RJustPadding(s: string, width: int)
    requires Unpadded(s)
    ensures var pad := if width <= |s| then 0 else width - |s|;
      && LeadingSpaces(RJust(s, width)) == pad
      && RJust(s, width)[pad..] == s
  {
    if width <= |s| {
      LeadingSpacesOfPadding(0, s);
      assert Spaces(0) + s == s;
    } else {
      LeadingSpacesOfPadding(width - |s|, s);
    }
  }
}
