/** The loosely-typed spreadsheet data the dashboard receives: cells, rows,
    JavaScript truthiness, `a || b || ...` chains, and the party record that
    the tables pass to each other. */
module Sheet {
  import opened Strings

  datatype Option<+T> = None | Some(value: T)
  {
    function GetOr(default: T): T {
      if Some? then value else default
    }
  }

  /** The present values among `f(0), ..., f(n - 1)`, in order: what a
      loop over `0..n` that pushes each value it finds builds. */
  function Gather<T>(n: nat, f: nat -> Option<T>): (r: seq<T>)
    ensures |r| <= n
    decreases n
  {
    if n == 0 then [] else Gather(n - 1, f) + (if f(n - 1).Some? then [f(n - 1).value] else [])
  }

  /** A value is gathered exactly when some index below `n` gives it. */
  lemma {:induction false} GatherOrigin<T>(n: nat, f: nat -> Option<T>, x: T)
    ensures x in Gather(n, f) <==> exists k :: 0 <= k < n && f(k) == Some(x)
    decreases n
  {
    if n > 0 {
      GatherOrigin(n - 1, f, x);
      if x in Gather(n, f) && x !in Gather(n - 1, f) {
        assert f(n - 1) == Some(x);
      }
      if k :| 0 <= k < n && f(k) == Some(x) {
        if k == n - 1 {
          assert x in Gather(n, f);
        }
      }
    }
  }

  /** When every index's value is keyed by that index, the gathered values
      have strictly ascending keys below `n`. */
  lemma {:induction false} GatherAscending<T>(n: nat, f: nat -> Option<T>, key: T -> int)
    requires forall k :: 0 <= k < n && f(k).Some? ==> key(f(k).value) == k
    ensures forall i :: 0 <= i < |Gather(n, f)| ==> 0 <= key(Gather(n, f)[i]) < n
    ensures forall i, j :: 0 <= i < j < |Gather(n, f)| ==> key(Gather(n, f)[i]) < key(Gather(n, f)[j])
    decreases n
  {
    if n > 0 {
      GatherAscending(n - 1, f, key);
      var a := Gather(n - 1, f);
      var r := Gather(n, f);
      assert forall i :: 0 <= i < |a| ==> r[i] == a[i];
    }
  }

  /** The outcome of a request or computation that may throw; `Failure`
      carries the error's `message`. */
  datatype Result<+T> = Success(value: T) | Failure(error: string)

  /** A cell value as it arrives in JSON. `Null` stands for both `null` and
      a missing key (`undefined`); numbers are integers. */
  datatype Cell = Null | Str(s: string) | Num(n: int) | Bool(b: bool)

  /** A row object as a sequence of key/value pairs, listed in
      `Object.values` order. */
  type Row = seq<(string, Cell)>

  /** JavaScript truthiness of a cell. */
  predicate Truthy(c: Cell) {
    match c
    case Null => false
    case Str(s) => s != []
    case Num(n) => n != 0
    case Bool(b) => b
  }

  function IntToString(n: int): (r: string)
    ensures r != []
  {
    if n < 0 then "-" + NatToString(-n) else NatToString(n)
  }

  /** `String(c)`, as `toString()` and template literals render a cell. Only
      the empty string renders as the empty text. */
  function ToStr(c: Cell): (r: string)
    ensures r == [] <==> c == Str([])
  {
    match c
    case Null => "null"
    case Str(s) => s
    case Num(n) => IntToString(n)
    case Bool(b) => if b then "true" else "false"
  }

  /** `row[key]`: the value of the first pair with that key, `Null` when
      there is none. */
  function Get(row: Row, key: string): Cell {
    if row == [] then Null
    else if row[0].0 == key then row[0].1
    else Get(row[1..], key)
  }

  /** `Get` gives the value of the first pair with the key, and `Null` when
      no pair has it. */
  lemma {:induction false} GetSpec(row: Row, key: string)
    ensures forall i :: 0 <= i < |row| && row[i].0 == key && (forall j :: 0 <= j < i ==> row[j].0 != key)
              ==> Get(row, key) == row[i].1
    ensures (forall i :: 0 <= i < |row| ==> row[i].0 != key) ==> Get(row, key) == Null
  {
    if row != [] && row[0].0 != key {
      GetSpec(row[1..], key);
      assert forall i :: 1 <= i < |row| ==> row[i] == row[1..][i - 1];
    }
  }

  /** `Object.values(row)[i]`, `Null` (undefined) past the end. */
  function ValueAt(row: Row, i: nat): (c: Cell)
    ensures i < |row| ==> c == row[i].1
    ensures i >= |row| ==> c == Null
  {
    if i < |row| then row[i].1 else Null
  }

  /** `row[keys[0]] || row[keys[1]] || ... || null`: the first truthy value
      under one of the keys, tried in order, or `Null`. */
  function FirstTruthyOf(row: Row, keys: seq<string>): (c: Cell)
    ensures Truthy(c) || c == Null
    decreases |keys|
  {
    if keys == [] then Null
    else if Truthy(Get(row, keys[0])) then Get(row, keys[0])
    else FirstTruthyOf(row, keys[1..])
  }

  /** The value of the chain is the value under the first key whose value
      is truthy, and `Null` when no key has a truthy value. */
  lemma {:induction false} FirstTruthyOfSpec(row: Row, keys: seq<string>)
    ensures forall k :: 0 <= k < |keys| && Truthy(Get(row, keys[k])) && (forall j :: 0 <= j < k ==> !Truthy(Get(row, keys[j])))
              ==> FirstTruthyOf(row, keys) == Get(row, keys[k])
    ensures (forall k :: 0 <= k < |keys| ==> !Truthy(Get(row, keys[k]))) ==> FirstTruthyOf(row, keys) == Null
    decreases |keys|
  {
    if keys != [] {
      FirstTruthyOfSpec(row, keys[1..]);
      assert forall k :: 1 <= k < |keys| ==> keys[k] == keys[1..][k - 1];
    }
  }

  /** Suffix form of the chain, which a lookup loop follows key by key. */
  lemma FirstTruthyOfStep(row: Row, keys: seq<string>, k: nat)
    requires k < |keys|
    ensures FirstTruthyOf(row, keys[k..]) ==
      if Truthy(Get(row, keys[k])) then Get(row, keys[k]) else FirstTruthyOf(row, keys[k + 1..])
  {
    assert keys[k..][1..] == keys[k + 1..];
  }

  /** `a || b || null` as the fallback steps write it
      (`if (!x && b) x = b`): `a` if truthy, else `b` if truthy, else `Null`. */
  function Or(a: Cell, b: Cell): (c: Cell)
    ensures Truthy(c) <==> Truthy(a) || Truthy(b)
    ensures !Truthy(c) ==> c == Null
  {
    if Truthy(a) then a else if Truthy(b) then b else Null
  }

  /** `cs[0] || cs[1] || ... || null`: the first truthy cell, or `Null`. */
  function FirstTruthy(cs: seq<Cell>): (r: Cell)
    ensures Truthy(r) <==> exists i :: 0 <= i < |cs| && Truthy(cs[i])
    ensures !Truthy(r) ==> r == Null
  {
    if cs == [] then Null
    else if Truthy(cs[0]) then cs[0]
    else
      var r := FirstTruthy(cs[1..]);
      assert forall i :: 1 <= i < |cs| ==> cs[i] == cs[1..][i - 1];
      r
  }

  /** The key `col_N` under which horizontal sheets store column `N`. */
  function ColKey(n: nat): (k: string)
    ensures |k| > 4 && k[..4] == "col_"
  {
    "col_" + NatToString(n)
  }

  lemma ColKeyInjective(m: nat, n: nat)
    requires ColKey(m) == ColKey(n)
    ensures m == n
  {
    assert NatToString(m) == ColKey(m)[4..];
    NatToStringInjective(m, n);
  }

  /** The names every plain object inherits from `Object.prototype`; looking
      one of them up in `{}` yields a truthy built-in rather than `undefined`. */
  const PrototypeKeys: seq<string> := [
    "constructor", "__proto__", "toString", "toLocaleString", "valueOf",
    "hasOwnProperty", "isPrototypeOf", "propertyIsEnumerable",
    "__defineGetter__", "__defineSetter__", "__lookupGetter__", "__lookupSetter__"
  ]

  /** What `obj[key]` reads on a plain object: an own entry, an inherited
      member, or `undefined`. */
  datatype Slot<V> = Own(value: V) | Inherited | Missing

  /** A property read on an object holding `m` whose prototype has the
      members `inherited`. */
  function Lookup<V>(m: map<string, V>, inherited: seq<string>, key: string): (s: Slot<V>)
    ensures s.Own? <==> key in m
    ensures s.Own? ==> s.value == m[key]
    ensures s.Inherited? <==> key !in m && key in inherited
  {
    if key in m then Own(m[key]) else if key in inherited then Inherited else Missing
  }

  /** A party as the party list shows it and hands to the stage list. */
  datatype Party = Party(id: int, name: string, totalProjects: int, stagesPresent: seq<Cell>)
}
