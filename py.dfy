/**
 * The slice of the Python runtime that the pipeline's handlers see: JSON-like
 * values (dicts keep insertion order, as Python's do), the exceptions they can
 * raise, and the few built-in operations the handlers apply to such values.
 */
module Py {

  datatype Option<+T> = None | Some(value: T)

  /** A Python value as it arrives from or leaves for the workflow engine. `Null` is Python's None. */
  datatype Value =
    | Null
    | Bool(b: bool)
    | Int(i: int)
    | Str(s: string)
    | List(items: seq<Value>)
    | Dict(entries: seq<(string, Value)>)

  /** The exception classes the modelled code can raise. `OutOfModel` marks input shapes the model does not follow. */
  datatype ExcClass =
    | ValueError
    | ParserError      // dateutil's ParserError, a subclass of ValueError
    | KeyError
    | TypeError
    | IndexError
    | AttributeError
    | OverflowError
    | ClientError      // botocore's error for a failed store request
    | OutOfModel

  datatype Exc = Exc(cls: ExcClass, message: string)

  /** What a Python call does: return a value or raise an exception. */
  datatype Result<+T> = Ok(value: T) | Err(exc: Exc) {
    predicate IsFailure() { Err? }
    function PropagateFailure<U>(): Result<U> requires Err? { Err(exc) }
    function Extract(): T requires Ok? { value }
  }

  /** `type(e).__name__` */
  function ClassName(c: ExcClass): string {
    match c
    case ValueError => "ValueError"
    case ParserError => "ParserError"
    case KeyError => "KeyError"
    case TypeError => "TypeError"
    case IndexError => "IndexError"
    case AttributeError => "AttributeError"
    case OverflowError => "OverflowError"
    case ClientError => "ClientError"
    case OutOfModel => "OutOfModel"
  }

  /** `isinstance(e, ValueError)` */
  predicate IsValueError(c: ExcClass) {
    c == ValueError || c == ParserError
  }

  /** `type(v).__name__` */
  function TypeName(v: Value): string {
    match v
    case Null => "NoneType"
    case Bool(_) => "bool"
    case Int(_) => "int"
    case Str(_) => "str"
    case List(_) => "list"
    case Dict(_) => "dict"
  }

  // ---------------------------------------------------------------------------
  // Dictionaries as ordered entry sequences

  function Keys<V>(e: seq<(string, V)>): (ks: seq<string>)
    ensures |ks| == |e|
    ensures forall i :: 0 <= i < |e| ==> ks[i] == e[i].0
  {
    if |e| == 0 then [] else [e[0].0] + Keys(e[1..])
  }

  /** No key occurs twice, as in every Python dict. */
  predicate UniqueKeys<V>(e: seq<(string, V)>) {
    forall i, j :: 0 <= i < j < |e| ==> e[i].0 != e[j].0
  }

  /** `d.get(k)`, with None standing for a missing key. */
  function Lookup<V>(e: seq<(string, V)>, k: string): (r: Option<V>)
    ensures r.None? <==> k !in Keys(e)
    ensures r.Some? ==> exists i :: 0 <= i < |e| && e[i] == (k, r.value)
  {
    if |e| == 0 then None
    else if e[0].0 == k then Some(e[0].1)
    else
      var r := Lookup(e[1..], k);
      assert r.Some? ==> exists i :: 1 <= i < |e| && e[i] == (k, r.value) by {
        if r.Some? {
          var i :| 0 <= i < |e[1..]| && e[1..][i] == (k, r.value);
          assert e[i + 1] == (k, r.value);
        }
      }
      r
  }

  /**
   * `d[k] = v`: an existing key keeps its position and takes the new value;
   * a new key is appended at the end.
   */
  function Store<V>(e: seq<(string, V)>, k: string, v: V): (r: seq<(string, V)>)
  {
    if |e| == 0 then [(k, v)]
    else if e[0].0 == k then [(k, v)] + e[1..]
    else [e[0]] + Store(e[1..], k, v)
  }

  lemma {:induction false} LookupStore<V>(e: seq<(string, V)>, k: string, v: V, k': string)
    ensures Lookup(Store(e, k, v), k') == if k' == k then Some(v) else Lookup(e, k')
  {
    if |e| > 0 && e[0].0 != k {
      LookupStore(e[1..], k, v, k');
      assert Store(e, k, v)[1..] == Store(e[1..], k, v);
    }
  }

  lemma {:induction false} KeysStore<V>(e: seq<(string, V)>, k: string, v: V)
    ensures Keys(Store(e, k, v)) == if k in Keys(e) then Keys(e) else Keys(e) + [k]
  {
    if |e| > 0 && e[0].0 != k {
      KeysStore(e[1..], k, v);
      assert Store(e, k, v) == [e[0]] + Store(e[1..], k, v);
      assert Keys(e) == [e[0].0] + Keys(e[1..]);
      assert k in Keys(e) <==> k in Keys(e[1..]);
    } else if |e| > 0 {
      assert Keys(Store(e, k, v)) == [k] + Keys(e[1..]);
    }
  }

  lemma StoreKeepsUnique<V>(e: seq<(string, V)>, k: string, v: V)
    requires UniqueKeys(e)
    ensures UniqueKeys(Store(e, k, v))
  {
    KeysStore(e, k, v);
    var r := Store(e, k, v);
    var ks := Keys(r);
    var ek := Keys(e);
    assert forall i, j :: 0 <= i < j < |ek| ==> ek[i] != ek[j];
    assert forall i, j :: 0 <= i < j < |ks| ==> ks[i] != ks[j];
  }

  /** In a dict, the value of the key at position `i` is the value at position `i`. */
  lemma {:induction false} LookupAt<V>(e: seq<(string, V)>, i: nat)
    requires UniqueKeys(e) && i < |e|
    ensures Lookup(e, e[i].0) == Some(e[i].1)
  {
    if i > 0 {
      assert e[0].0 != e[i].0;
      assert UniqueKeys(e[1..]) by {
        forall a, b | 0 <= a < b < |e[1..]| ensures e[1..][a].0 != e[1..][b].0 {
          assert e[1..][a] == e[a + 1] && e[1..][b] == e[b + 1];
        }
      }
      LookupAt(e[1..], i - 1);
    }
  }

  /** Assigning to a key already present replaces the value in that key's position. */
  lemma {:induction false} StoreAt<V>(e: seq<(string, V)>, i: nat, v: V)
    requires UniqueKeys(e) && i < |e|
    ensures Store(e, e[i].0, v) == e[i := (e[i].0, v)]
  {
    if i > 0 {
      assert e[0].0 != e[i].0;
      assert UniqueKeys(e[1..]) by {
        forall a, b | 0 <= a < b < |e[1..]| ensures e[1..][a].0 != e[1..][b].0 {
          assert e[1..][a] == e[a + 1] && e[1..][b] == e[b + 1];
        }
      }
      StoreAt(e[1..], i - 1, v);
      assert e[i := (e[i].0, v)] == [e[0]] + e[1..][i - 1 := (e[i].0, v)];
    }
  }

  /** Applies `d[k] = v` for every entry of `extra`, in order: `{**base, **extra}`. */
  function Merge<V>(base: seq<(string, V)>, extra: seq<(string, V)>): seq<(string, V)>
    decreases |extra|
  {
    if |extra| == 0 then base
    else Merge(Store(base, extra[0].0, extra[0].1), extra[1..])
  }

  lemma {:induction false} LookupMerge<V>(base: seq<(string, V)>, extra: seq<(string, V)>, k: string)
    requires UniqueKeys(extra)
    ensures Lookup(Merge(base, extra), k) == if k in Keys(extra) then Lookup(extra, k) else Lookup(base, k)
    decreases |extra|
  {
    if |extra| > 0 {
      var base' := Store(base, extra[0].0, extra[0].1);
      assert UniqueKeys(extra[1..]) by {
        forall i, j | 0 <= i < j < |extra[1..]| ensures extra[1..][i].0 != extra[1..][j].0 {
          assert extra[1..][i] == extra[i + 1] && extra[1..][j] == extra[j + 1];
        }
      }
      LookupMerge(base', extra[1..], k);
      LookupStore(base, extra[0].0, extra[0].1, k);
      assert Keys(extra) == [extra[0].0] + Keys(extra[1..]);
      if k == extra[0].0 {
        forall j | 0 <= j < |extra[1..]| ensures extra[1..][j].0 != k {
          assert extra[1..][j] == extra[j + 1];
        }
      }
    }
  }

  /** The value of the last entry for `k` in `e`: the one that `d[k] = v` applied in order leaves behind. */
  function LastValue<V>(e: seq<(string, V)>, k: string): (r: Option<V>)
    ensures r.None? <==> k !in Keys(e)
  {
    if |e| == 0 then None
    else
      var later := LastValue(e[1..], k);
      assert Keys(e) == [e[0].0] + Keys(e[1..]);
      if later.Some? then later else if e[0].0 == k then Some(e[0].1) else None
  }

  /** `{**base, **extra}` with repeated keys in `extra`: the last assignment to a key wins. */
  lemma {:induction false} LookupMergeLast<V>(base: seq<(string, V)>, extra: seq<(string, V)>, k: string)
    ensures Lookup(Merge(base, extra), k) == if k in Keys(extra) then LastValue(extra, k) else Lookup(base, k)
    decreases |extra|
  {
    if |extra| > 0 {
      var base' := Store(base, extra[0].0, extra[0].1);
      LookupMergeLast(base', extra[1..], k);
      LookupStore(base, extra[0].0, extra[0].1, k);
      assert Keys(extra) == [extra[0].0] + Keys(extra[1..]);
    }
  }

  /** The keys of `{**base, **extra}`: those of `base`, then the new keys of `extra` in first-appearance order. */
  lemma {:induction false} KeysMerge<V>(base: seq<(string, V)>, extra: seq<(string, V)>, k: string)
    ensures k in Keys(Merge(base, extra)) <==> k in Keys(base) || k in Keys(extra)
    decreases |extra|
  {
    if |extra| > 0 {
      var base' := Store(base, extra[0].0, extra[0].1);
      KeysMerge(base', extra[1..], k);
      KeysStore(base, extra[0].0, extra[0].1);
      assert Keys(extra) == [extra[0].0] + Keys(extra[1..]);
    }
  }

  lemma MergeKeepsUnique<V>(base: seq<(string, V)>, extra: seq<(string, V)>)
    requires UniqueKeys(base)
    ensures UniqueKeys(Merge(base, extra))
    decreases |extra|
  {
    if |extra| > 0 {
      StoreKeepsUnique(base, extra[0].0, extra[0].1);
      MergeKeepsUnique(Store(base, extra[0].0, extra[0].1), extra[1..]);
    }
  }

  // ---------------------------------------------------------------------------
  // Evaluation in order

  /** `[f(x) for x in xs]`: the results in order, or the exception of the first call that raises. */
  function MapAll<A, B>(f: A -> Result<B>, xs: seq<A>): (r: Result<seq<B>>)
    ensures r.Ok? <==> forall i :: 0 <= i < |xs| ==> f(xs[i]).Ok?
    ensures r.Ok? ==> |r.value| == |xs| && forall i :: 0 <= i < |xs| ==> r.value[i] == f(xs[i]).value
    ensures r.Err? ==> exists i :: 0 <= i < |xs| && f(xs[i]).Err? && r.exc == f(xs[i]).exc
                              && forall j :: 0 <= j < i ==> f(xs[j]).Ok?
    decreases |xs|
  {
    if |xs| == 0 then Ok([])
    else
      var last := |xs| - 1;
      var front := MapAll(f, xs[..last]);
      assert forall i :: 0 <= i < last ==> xs[..last][i] == xs[i];
      if front.Err? then
        assert exists i :: 0 <= i < last && f(xs[i]).Err? && front.exc == f(xs[i]).exc
                           && forall j :: 0 <= j < i ==> f(xs[j]).Ok?;
        Err(front.exc)
      else if f(xs[last]).Err? then Err(f(xs[last]).exc)
      else Ok(front.value + [f(xs[last]).value])
  }

  /** A comprehension that has succeeded on a prefix extends by the next item when that item succeeds. */
  lemma MapAllExtends<A, B>(f: A -> Result<B>, xs: seq<A>, n: nat, ys: seq<B>)
    requires n < |xs| && MapAll(f, xs[..n]) == Ok(ys) && f(xs[n]).Ok?
    ensures MapAll(f, xs[..n + 1]) == Ok(ys + [f(xs[n]).value])
  {
    assert xs[..n + 1][..n] == xs[..n];
  }

  /** A comprehension that has succeeded on a prefix fails with the error of the next item when that item fails. */
  lemma {:induction false} MapAllStops<A, B>(f: A -> Result<B>, xs: seq<A>, n: nat)
    requires n < |xs| && MapAll(f, xs[..n]).Ok? && f(xs[n]).Err?
    ensures MapAll(f, xs) == Err(f(xs[n]).exc)
    decreases |xs|
  {
    var last := |xs| - 1;
    if n < last {
      assert xs[..last][..n] == xs[..n] && xs[..last][n] == xs[n];
      MapAllStops(f, xs[..last], n);
    } else {
      assert xs[..last] == xs[..n];
    }
  }

  // ---------------------------------------------------------------------------
  // Built-in operations on values

  /** The TypeError raised by `v[key]` for a string key and a non-dict `v` (CPython 3.11 wording). */
  function SubscriptError(v: Value): (e: Exc)
    requires !v.Dict?
    ensures e.cls == TypeError
  {
    match v
    case Str(_) => Exc(TypeError, "string indices must be integers, not 'str'")
    case List(_) => Exc(TypeError, "list indices must be integers or slices, not str")
    case _ => Exc(TypeError, "'" + TypeName(v) + "' object is not subscriptable")
  }

  /** `v[key]` for a string key. */
  function GetItem(v: Value, key: string): (r: Result<Value>)
    ensures r.Ok? <==> v.Dict? && key in Keys(v.entries)
    ensures r.Ok? ==> Lookup(v.entries, key) == Some(r.value)
    ensures v.Dict? && r.Err? ==> r.exc == Exc(KeyError, "'" + key + "'")
  {
    match v
    case Dict(e) =>
      (match Lookup(e, key)
       case Some(x) => Ok(x)
       case None => Err(Exc(KeyError, "'" + key + "'")))
    case _ => Err(SubscriptError(v))
  }

  /** The items a `for` loop over `v` visits. */
  function Iterate(v: Value): (r: Result<seq<Value>>)
    ensures v.List? ==> r == Ok(v.items)
    ensures (v.Null? || v.Bool? || v.Int?) <==> r.Err?
  {
    match v
    case List(items) => Ok(items)
    case Str(s) => Ok(seq(|s|, i requires 0 <= i < |s| => Str([s[i]])))
    case Dict(e) => Ok(seq(|e|, i requires 0 <= i < |e| => Str(e[i].0)))
    case _ => Err(Exc(TypeError, "'" + TypeName(v) + "' object is not iterable"))
  }

  predicate OccursAt(part: string, s: string, i: nat) {
    i + |part| <= |s| && s[i..i + |part|] == part
  }

  predicate IsSubstring(part: string, s: string) {
    exists i: nat :: i <= |s| && OccursAt(part, s, i)
  }

  /** `key in v` for a string key. */
  function Contains(v: Value, key: string): (r: Result<bool>)
    ensures v.Dict? ==> r == Ok(key in Keys(v.entries))
    ensures (v.Null? || v.Bool? || v.Int?) <==> r.Err?
  {
    match v
    case Dict(e) => Ok(key in Keys(e))
    case Str(s) => Ok(IsSubstring(key, s))
    case List(items) => Ok(exists i :: 0 <= i < |items| && items[i] == Str(key))
    case _ => Err(Exc(TypeError, "argument of type '" + TypeName(v) + "' is not iterable"))
  }

  // ---------------------------------------------------------------------------
  // str() and repr()

  function DigitChar(d: int): char
    requires 0 <= d < 10
  {
    ('0' as int + d) as char
  }

  /** The decimal digits of a natural number, as `str(n)` writes them. */
  function NatToString(n: nat): (s: string)
    ensures |s| >= 1
    ensures forall i :: 0 <= i < |s| ==> '0' <= s[i] <= '9'
    decreases n
  {
    if n < 10 then [DigitChar(n)] else NatToString(n / 10) + [DigitChar(n % 10)]
  }

  /** `str(i)` for an int. */
  function IntToString(i: int): string {
    if i < 0 then "-" + NatToString(-i) else NatToString(i)
  }

  /** The quote repr() puts around a string: double quotes when it holds a `'` and no `"`. */
  function Quote(s: string): (q: char)
    ensures q == '"' <==> '\'' in s && '"' !in s
    ensures q == '"' || q == '\''
  {
    if '\'' in s && '"' !in s then '"' else '\''
  }

  /** A lower-case hexadecimal digit. */
  function HexDigit(n: nat): (c: char)
    requires n < 16
    ensures '0' <= c <= '9' || 'a' <= c <= 'f'
  {
    if n < 10 then (48 + n) as char else (87 + n) as char
  }

  /**
   * Characters up to U+00FF that repr() writes as `\xhh`: the C0 controls other
   * than tab, newline and carriage return, DEL, the C1 controls, the no-break space
   * and the soft hyphen.
   */
  predicate HexEscaped(c: char) {
    c as int < 32 || 127 <= c as int <= 160 || c as int == 173
  }

  /** How repr() writes one character of a string it puts between the quotes `q`. */
  function EscapeChar(c: char, q: char): (r: string)
    requires q == '"' || q == '\''
    ensures '\n' !in r
    ensures |r| >= 1
  {
    if c == q || c == '\\' then ['\\', c]
    else if c == '\t' then "\\t"
    else if c == '\n' then "\\n"
    else if c == '\r' then "\\r"
    else if HexEscaped(c) then ['\\', 'x', HexDigit(c as int / 16), HexDigit(c as int % 16)]
    else [c]
  }

  /** The characters of `s` as repr() writes them between the quotes `q`. */
  function Escape(s: string, q: char): (r: string)
    requires q == '"' || q == '\''
    ensures '\n' !in r
    ensures |r| >= |s|
  {
    if |s| == 0 then "" else EscapeChar(s[0], q) + Escape(s[1..], q)
  }

  /** `repr(s)` for a string. */
  function StrRepr(s: string): (r: string)
    ensures '\n' !in r
    ensures |r| >= |s| + 2 && r[0] == r[|r| - 1] == Quote(s)
  {
    [Quote(s)] + Escape(s, Quote(s)) + [Quote(s)]
  }

  /** `repr(v)`. */
  function Repr(v: Value): (r: string)
    ensures '\n' !in r
    decreases v, 1
  {
    match v
    case Str(s) => StrRepr(s)
    case List(items) => "[" + ReprItems(items) + "]"
    case Dict(_) => "{" + ReprEntries(v, 0) + "}"
    case _ => ScalarStr(v)
  }

  function ReprItems(items: seq<Value>): (r: string)
    ensures '\n' !in r
    decreases items
  {
    if |items| == 0 then ""
    else if |items| == 1 then Repr(items[0])
    else Repr(items[0]) + ", " + ReprItems(items[1..])
  }

  /** The `'key': value` pairs of a dict's repr, from entry `i` on. */
  function ReprEntries(d: Value, i: nat): (r: string)
    requires d.Dict?
    ensures '\n' !in r
    decreases d, 0, |d.entries| - i
  {
    if i >= |d.entries| then ""
    else
      var entry := d.entries[i];
      assert entry in d.entries;
      var first := StrRepr(entry.0) + ": " + Repr(entry.1);
      if i + 1 == |d.entries| then first else first + ", " + ReprEntries(d, i + 1)
  }

  /** `str(v)` for None, a bool or an int. */
  function ScalarStr(v: Value): (r: string)
    ensures '\n' !in r
  {
    match v
    case Bool(b) => if b then "True" else "False"
    case Int(i) => IntToString(i)
    case _ => "None"
  }

  /** `str(v)`: a string is itself; every other value is its repr, which holds no newline. */
  function PyStr(v: Value): (r: string)
    ensures !v.Str? ==> '\n' !in r
  {
    match v
    case Str(s) => s
    case List(_) => Repr(v)
    case Dict(_) => Repr(v)
    case _ => ScalarStr(v)
  }

  /** The value of a lower-case hexadecimal digit; the inverse of `HexDigit`. */
  function HexValue(c: char): (n: nat)
    ensures n < 16
    ensures '0' <= c <= '9' || 'a' <= c <= 'f' ==> HexDigit(n) == c
  {
    if '0' <= c <= '9' then c as int - 48 else if 'a' <= c <= 'f' then c as int - 87 else 0
  }

  /** Reads back the characters between the quotes of a string's repr: the decoder of `Escape`. */
  function Unescape(r: string): string
    decreases |r|
  {
    if |r| == 0 then ""
    else if r[0] == '\\' && |r| >= 4 && r[1] == 'x' then [(16 * HexValue(r[2]) + HexValue(r[3])) as char] + Unescape(r[4..])
    else if r[0] == '\\' && |r| >= 2 then
      var c := if r[1] == 't' then '\t' else if r[1] == 'n' then '\n' else if r[1] == 'r' then '\r' else r[1];
      [c] + Unescape(r[2..])
    else [r[0]] + Unescape(r[1..])
  }

  /** Reading back one escaped character gives that character. */
  lemma UnescapeChar(c: char, q: char, t: string)
    requires q == '"' || q == '\''
    ensures Unescape(EscapeChar(c, q) + t) == [c] + Unescape(t)
  {
    var e := EscapeChar(c, q);
    if HexEscaped(c) && !(c == q || c == '\\' || c == '\t' || c == '\n' || c == '\r') {
      var hi, lo := c as int / 16, c as int % 16;
      assert e == ['\\', 'x', HexDigit(hi), HexDigit(lo)];
      assert HexValue(HexDigit(hi)) == hi && HexValue(HexDigit(lo)) == lo;
      assert (e + t)[4..] == t;
    } else if |e| == 2 {
      assert (e + t)[2..] == t;
    } else {
      assert (e + t)[1..] == t;
    }
  }

  /** `Unescape` inverts `Escape`: repr() loses nothing of a string. */
  lemma {:induction false} EscapeRoundTrip(s: string, q: char)
    requires q == '"' || q == '\''
    ensures Unescape(Escape(s, q)) == s
    decreases |s|
  {
    if |s| > 0 {
      UnescapeChar(s[0], q, Escape(s[1..], q));
      EscapeRoundTrip(s[1..], q);
    }
  }

  /** The text between the quotes of `repr(s)` reads back as `s`. */
  lemma StrReprRoundTrip(s: string)
    ensures var r := StrRepr(s); Unescape(r[1..|r| - 1]) == s
  {
    var r := StrRepr(s);
    assert r[1..|r| - 1] == Escape(s, Quote(s));
    EscapeRoundTrip(s, Quote(s));
  }

  /** A character repr() writes as it is between the quotes `q`. */
  predicate Plain(c: char, q: char) {
    32 <= c as int < 127 && c != '\\' && c != q
  }

  /** A string of plain characters is written unchanged between the quotes. */
  lemma {:induction false} EscapePlain(s: string, q: char)
    requires q == '"' || q == '\''
    requires forall i :: 0 <= i < |s| ==> Plain(s[i], q)
    ensures Escape(s, q) == s
    decreases |s|
  {
    if |s| > 0 {
      assert Plain(s[0], q);
      EscapePlain(s[1..], q);
      assert s == [s[0]] + s[1..];
    }
  }

  /**
   * `repr` of printable ASCII without a backslash that does not hold both kinds
   * of quote: the string itself in double quotes when it holds a `'`, otherwise
   * in single quotes.
   */
  lemma ReprPrintable(s: string)
    requires forall i :: 0 <= i < |s| ==> 32 <= s[i] as int < 127 && s[i] != '\\'
    requires !('\'' in s && '"' in s)
    ensures Repr(Str(s)) == (if '\'' in s then "\"" + s + "\"" else "'" + s + "'")
  {
    var q := Quote(s);
    forall i | 0 <= i < |s| ensures Plain(s[i], q) {
      assert s[i] in s;
    }
    EscapePlain(s, q);
  }

  /** A list holding the string `it's` prints as `["it's"]`. */
  lemma ReprApostrophe()
    ensures Repr(List([Str("it's")])) == "[\"it's\"]"
  {
    ReprPrintable("it's");
  }

  // ---------------------------------------------------------------------------
  // Indexing, slicing, len() and str.join

  /** The AttributeError of `v.name` for a method `v`'s type does not have. */
  function NoAttribute(v: Value, name: string): Exc {
    Exc(AttributeError, "'" + TypeName(v) + "' object has no attribute '" + name + "'")
  }

  /** `v[i]` for a non-negative int index. A dict's keys are strings here, so an int key is never found. */
  function Index(v: Value, i: nat): (r: Result<Value>)
    ensures v.List? && i < |v.items| ==> r == Ok(v.items[i])
    ensures r.Ok? <==> (v.List? && i < |v.items|) || (v.Str? && i < |v.s|)
  {
    match v
    case List(items) => if i < |items| then Ok(items[i]) else Err(Exc(IndexError, "list index out of range"))
    case Str(s) => if i < |s| then Ok(Str([s[i]])) else Err(Exc(IndexError, "string index out of range"))
    case Dict(_) => Err(Exc(KeyError, IntToString(i)))
    case _ => Err(Exc(TypeError, "'" + TypeName(v) + "' object is not subscriptable"))
  }

  /** `v[1:]` */
  function Rest(v: Value): (r: Result<Value>)
    ensures v.List? ==> r == Ok(List(if |v.items| == 0 then [] else v.items[1..]))
  {
    match v
    case List(items) => Ok(List(if |items| == 0 then [] else items[1..]))
    case Str(s) => Ok(Str(if |s| == 0 then "" else s[1..]))
    case Dict(_) => Err(Exc(TypeError, "unhashable type: 'slice'"))
    case _ => Err(Exc(TypeError, "'" + TypeName(v) + "' object is not subscriptable"))
  }

  /** `len(v)` */
  function Len(v: Value): (r: Result<nat>)
    ensures v.List? ==> r == Ok(|v.items|)
    ensures r.Ok? <==> v.List? || v.Str? || v.Dict?
  {
    match v
    case List(items) => Ok(|items|)
    case Str(s) => Ok(|s|)
    case Dict(e) => Ok(|e|)
    case _ => Err(Exc(TypeError, "object of type '" + TypeName(v) + "' has no len()"))
  }

  /** The strings of `items`, or the TypeError `str.join` raises at the first item that is not one. */
  function Strings(items: seq<Value>, from: nat): (r: Result<seq<string>>)
    requires from <= |items|
    ensures r.Ok? <==> forall i :: from <= i < |items| ==> items[i].Str?
    ensures r.Ok? ==> |r.value| == |items| - from && forall i :: from <= i < |items| ==> r.value[i - from] == items[i].s
    decreases |items| - from
  {
    if from == |items| then Ok([])
    else if !items[from].Str? then
      Err(Exc(TypeError, "sequence item " + IntToString(from) + ": expected str instance, " + TypeName(items[from]) + " found"))
    else
      var rest :- Strings(items, from + 1);
      Ok([items[from].s] + rest)
  }

  /** A value used as a dict key: strings are the keys the model follows; lists and dicts are unhashable. */
  function HashKey(v: Value): (r: Result<string>)
    ensures v.Str? <==> r.Ok?
    ensures v.Str? ==> r.value == v.s
  {
    match v
    case Str(s) => Ok(s)
    case List(_) => Err(Exc(TypeError, "unhashable type: 'list'"))
    case Dict(_) => Err(Exc(TypeError, "unhashable type: 'dict'"))
    case _ => Err(Exc(OutOfModel, "dict key that is not a string"))
  }
}
