/** Counting by key, as `generateTaskSummary` does with `b[k] = (b[k] || 0) + 1`: a tally maps
    each value seen to how many times it was seen, and its counts add up to the number of values.
    The last part of the module models the same statement on a plain JavaScript object, where keys
    that name `Object.prototype` members break the count, and relates the two. */
module Counting {

  /** One step of the intended count: `m[k] = (m[k] || 0) + 1` with a missing key read as 0. */
  function Inc(m: map<string, nat>, k: string): (r: map<string, nat>)
    ensures r.Keys == m.Keys + {k}
    ensures r[k] == (if k in m then m[k] else 0) + 1
    ensures forall j :: j in m && j != k ==> r[j] == m[j]
  {
    m[k := (if k in m then m[k] else 0) + 1]
  }

  /** The tally of `xs`, built front to back one value at a time. */
  function Tally(xs: seq<string>): (r: map<string, nat>)
    ensures forall k :: k in r ==> 0 < r[k] <= |xs|
    decreases |xs|
  {
    if xs == [] then map[] else Inc(Tally(xs[..|xs| - 1]), xs[|xs| - 1])
  }

  /** A tally's keys are exactly the values seen, each mapped to its number of occurrences. */
  lemma {:induction false} TallyCounts(xs: seq<string>)
    ensures forall k :: k in Tally(xs) <==> k in xs
    ensures forall k :: k in Tally(xs) ==> Tally(xs)[k] == multiset(xs)[k]
    decreases |xs|
  {
    if xs != [] {
      var init, last := xs[..|xs| - 1], xs[|xs| - 1];
      TallyCounts(init);
      assert xs == init + [last];
      assert multiset(xs) == multiset(init) + multiset{last};
    }
  }

  /** The sum of `m`'s values over `keys`. */
  ghost function SumOver(m: map<string, nat>, keys: set<string>): nat
    requires keys <= m.Keys
    decreases keys
  {
    if keys == {} then 0 else var k :| k in keys; m[k] + SumOver(m, keys - {k})
  }

  /** The sum of all of `m`'s values. */
  ghost function Total(m: map<string, nat>): nat
  {
    SumOver(m, m.Keys)
  }

  /** Any key may be taken out of the sum first. */
  lemma {:induction false} SumSplit(m: map<string, nat>, keys: set<string>, k: string)
    requires keys <= m.Keys && k in keys
    ensures SumOver(m, keys) == m[k] + SumOver(m, keys - {k})
    decreases keys
  {
    var c :| c in keys && SumOver(m, keys) == m[c] + SumOver(m, keys - {c});
    if c != k {
      SumSplit(m, keys - {c}, k);
      SumSplit(m, keys - {k}, c);
      assert keys - {c} - {k} == keys - {k} - {c};
    }
  }

  /** Two maps that agree on `keys` have the same sum over them. */
  lemma {:induction false} SumAgree(m1: map<string, nat>, m2: map<string, nat>, keys: set<string>)
    requires keys <= m1.Keys && keys <= m2.Keys
    requires forall k :: k in keys ==> m1[k] == m2[k]
    ensures SumOver(m1, keys) == SumOver(m2, keys)
    decreases keys
  {
    if keys != {} {
      var c :| c in keys && SumOver(m1, keys) == m1[c] + SumOver(m1, keys - {c});
      SumSplit(m2, keys, c);
      SumAgree(m1, m2, keys - {c});
    }
  }

  /** One more occurrence adds one to the total. */
  lemma IncTotal(m: map<string, nat>, k: string)
    ensures Total(Inc(m, k)) == Total(m) + 1
  {
    var r := Inc(m, k);
    SumSplit(r, r.Keys, k);
    if k in m {
      assert r.Keys == m.Keys;
      SumSplit(m, m.Keys, k);
      SumAgree(r, m, m.Keys - {k});
    } else {
      assert r.Keys - {k} == m.Keys;
      SumAgree(r, m, m.Keys);
    }
  }

  /** The counts of a tally add up to the number of values tallied. */
  lemma {:induction false} TallyTotal(xs: seq<string>)
    ensures Total(Tally(xs)) == |xs|
    decreases |xs|
  {
    if xs != [] {
      TallyTotal(xs[..|xs| - 1]);
      IncTotal(Tally(xs[..|xs| - 1]), xs[|xs| - 1]);
    }
  }

  // ----- the count as a plain JavaScript object performs it -----

  /** The names a plain object `{}` inherits from `Object.prototype`. Reading one of them on an
      object without an own property of that name gives the inherited member, not `undefined`. */
  predicate IsInherited(k: string)
  {
    || k == "constructor" || k == "hasOwnProperty" || k == "isPrototypeOf"
    || k == "propertyIsEnumerable" || k == "toLocaleString" || k == "toString" || k == "valueOf"
    || k == "__defineGetter__" || k == "__defineSetter__" || k == "__lookupGetter__"
    || k == "__lookupSetter__" || k == "__proto__"
  }

  /** A breakdown entry of the object: a number, or the text `+` makes of a non-number. */
  datatype Entry = Count(n: nat) | Text(s: string)

  /** `String(Object.prototype[k])` for an inherited name `k`: the prototype object itself for
      `__proto__`, a native function otherwise. */
  function InheritedText(k: string): string
  {
    if k == "__proto__" then "[object Object]"
    else "function " + (if k == "constructor" then "Object" else k) + "() { [native code] }"
  }

  /** `b[k] = (b[k] || 0) + 1` on an object that started as `{}`. An own number is incremented.
      An own text gets "1" appended. An inherited member is truthy, so `+ 1` turns it into text.
      A write to `__proto__` goes to the prototype setter, which ignores a string, so that key is
      never stored. */
  function ObjectInc(m: map<string, Entry>, k: string): (r: map<string, Entry>)
    ensures k == "__proto__" ==> r == m
    ensures k != "__proto__" ==> r.Keys == m.Keys + {k}
    ensures forall j :: j in m && j != k ==> r[j] == m[j]
    ensures k !in m && !IsInherited(k) ==> r[k] == Count(1)
    ensures k !in m && IsInherited(k) && k != "__proto__" ==> r[k].Text?
  {
    if k == "__proto__" then m
    else if k in m then
      m[k := match m[k] case Count(n) => Count(n + 1) case Text(s) => Text(s + "1")]
    else if IsInherited(k) then m[k := Text(InheritedText(k) + "1")]
    else m[k := Count(1)]
  }

  /** The breakdown object the `forEach` leaves behind, as written. */
  function ObjectTally(xs: seq<string>): (r: map<string, Entry>)
    ensures "__proto__" !in r
    ensures forall k :: k in r <==> k in xs && k != "__proto__"
    decreases |xs|
  {
    if xs == [] then map[] else ObjectInc(ObjectTally(xs[..|xs| - 1]), xs[|xs| - 1])
  }

  /** A tally read as the object's entries: every count a number. */
  function AsEntries(m: map<string, nat>): (r: map<string, Entry>)
    ensures r.Keys == m.Keys && forall k :: k in m ==> r[k] == Count(m[k])
  {
    map k | k in m :: Count(m[k])
  }

  /** On a key that names no inherited member, one step of the object is one step of the tally. */
  lemma ObjectIncAgrees(m: map<string, nat>, k: string)
    requires !IsInherited(k)
    ensures ObjectInc(AsEntries(m), k) == AsEntries(Inc(m, k))
  {
    var l, r := ObjectInc(AsEntries(m), k), AsEntries(Inc(m, k));
    assert l.Keys == r.Keys;
    forall j | j in l ensures l[j] == r[j] {
    }
  }

  /** Where no value names an inherited member, the object holds exactly the intended tally. */
  lemma {:induction false} ObjectTallyAgrees(xs: seq<string>)
    requires forall i :: 0 <= i < |xs| ==> !IsInherited(xs[i])
    ensures ObjectTally(xs) == AsEntries(Tally(xs))
    decreases |xs|
  {
    if xs != [] {
      var init, last := xs[..|xs| - 1], xs[|xs| - 1];
      ObjectTallyAgrees(init);
      ObjectIncAgrees(Tally(init), last);
    }
  }

  /** A task whose field is "__proto__" is counted nowhere: the breakdown stays empty while one
      task was counted, whereas the intended tally records it. */
  lemma ProtoKeyIsLost()
    ensures ObjectTally(["__proto__"]) == map[]
    ensures Tally(["__proto__"]) == map["__proto__" := 1] && Total(Tally(["__proto__"])) == 1
  {
    assert ["__proto__"][..0] == [];
    TallyTotal(["__proto__"]);
  }

  /** A task whose field is "constructor" gets text, not a count, in the breakdown
      (`"function Object() { [native code] }1"`), where the intended tally counts it once. */
  lemma ConstructorKeyIsText()
    ensures ObjectTally(["constructor"]).Keys == {"constructor"}
    ensures ObjectTally(["constructor"])["constructor"].Text?
    ensures Tally(["constructor"]) == map["constructor" := 1]
  {
    assert ["constructor"][..0] == [];
    assert IsInherited("constructor") && "constructor" != "__proto__";
  }
}
