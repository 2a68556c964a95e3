/** IRC case mappings and the maps keyed by them (`xirc/casemapping.go`). */
module CaseMapping {
  import opened Text

  datatype Mapping = Ascii | Rfc1459Strict | Rfc1459

  function FoldChar(m: Mapping, c: char): char {
    if 'A' <= c <= 'Z' then c - 'A' + 'a'
    else if m.Ascii? then c
    else if c == '{' then '['
    else if c == '}' then ']'
    else if c == '\\' then '|'
    else if c == '~' && m.Rfc1459? then '^'
    else c
  }

  function Fold(m: Mapping, name: string): (r: string)
    ensures |r| == |name| && forall i :: 0 <= i < |name| ==> r[i] == FoldChar(m, name[i])
  {
    seq(|name|, i requires 0 <= i < |name| => FoldChar(m, name[i]))
  }

  /** The case mappings as they run: a loop over a copy of the name's bytes. */
  method Casemap(m: Mapping, name: string) returns (r: string)
    ensures r == Fold(m, name)
  {
    var bytes := new char[|name|](i requires 0 <= i < |name| => name[i]);
    var i := 0;
    while i < bytes.Length
      invariant 0 <= i <= bytes.Length
      invariant forall k :: 0 <= k < bytes.Length ==> bytes[k] == if k < i then FoldChar(m, name[k]) else name[k]
    {
      var c := bytes[i];
      if 'A' <= c <= 'Z' {
        bytes[i] := c - 'A' + 'a';
      } else if !m.Ascii? {
        if c == '{' {
          bytes[i] := '[';
        } else if c == '}' {
          bytes[i] := ']';
        } else if c == '\\' {
          bytes[i] := '|';
        } else if m.Rfc1459? && c == '~' {
          bytes[i] := '^';
        }
      }
      i := i + 1;
    }
    r := bytes[..];
  }

  predicate Same(m: Mapping, a: string, b: string) {
    Fold(m, a) == Fold(m, b)
  }

  /** `b` identifies at least the names `a` identifies. */
  predicate Coarser(a: Mapping, b: Mapping) {
    a.Ascii? || a == b || b.Rfc1459?
  }

  lemma {:induction false} FoldIdempotent(m: Mapping, name: string)
    ensures Fold(m, Fold(m, name)) == Fold(m, name)
  {
  }

  /** The equivalences grow from ascii over rfc1459-strict to rfc1459. */
  lemma {:induction false} CoarserIdentifiesMore(a: Mapping, b: Mapping, x: string, y: string)
    requires Coarser(a, b) && Same(a, x, y)
    ensures Same(b, x, y)
  {
    assert |x| == |y| by { assert |Fold(a, x)| == |Fold(a, y)|; }
    forall i | 0 <= i < |x| ensures FoldChar(b, x[i]) == FoldChar(b, y[i]) {
      assert Fold(a, x)[i] == Fold(a, y)[i];
    }
  }

  /** They really grow: each step identifies names the one before keeps apart. */
  lemma {:induction false} EquivalencesDiffer()
    ensures !Same(Ascii, "{", "[") && Same(Rfc1459Strict, "{", "[")
    ensures !Same(Rfc1459Strict, "~", "^") && Same(Rfc1459, "~", "^")
  {
    assert Fold(Ascii, "{")[0] == '{' && Fold(Ascii, "[")[0] == '[';
    assert Fold(Rfc1459Strict, "~")[0] == '~' && Fold(Rfc1459Strict, "^")[0] == '^';
  }

  // ---- Maps

  datatype Entry<+V> = Entry(originalKey: string, value: V)

  type CMap<!V> = map<string, Entry<V>>

  /** Every entry sits under the mapping of its original key. */
  predicate Keyed<V>(m: CMap<V>, cm: Mapping) {
    forall k :: k in m ==> k == Fold(cm, m[k].originalKey)
  }

  function Get<V>(m: CMap<V>, cm: Mapping, name: string): Option<V> {
    var k := Fold(cm, name);
    if k in m then Some(m[k].value) else None
  }

  function Set<V>(m: CMap<V>, cm: Mapping, name: string, value: V): CMap<V> {
    var k := Fold(cm, name);
    m[k := Entry(if k in m then m[k].originalKey else name, value)]
  }

  function Del<V>(m: CMap<V>, cm: Mapping, name: string): CMap<V> {
    m - {Fold(cm, name)}
  }

  /** Set and Del change the value of a name and all names equivalent to it, and no other. */
  lemma {:induction false} SetGet<V>(m: CMap<V>, cm: Mapping, name: string, value: V, x: string)
    requires Keyed(m, cm)
    ensures Keyed(Set(m, cm, name, value), cm)
    ensures Get(Set(m, cm, name, value), cm, x) == if Same(cm, x, name) then Some(value) else Get(m, cm, x)
  {
  }

  lemma {:induction false} DelGet<V>(m: CMap<V>, cm: Mapping, name: string, x: string)
    requires Keyed(m, cm)
    ensures Keyed(Del(m, cm, name), cm)
    ensures Get(Del(m, cm, name), cm, x) == if Same(cm, x, name) then None else Get(m, cm, x)
  {
  }

  /** `m'` holds, under the new mapping, one entry of `m` for every class of original keys; where several entries of
      `m` share a class, iteration order decides. */
  predicate Remapped<V(==)>(m: CMap<V>, m': CMap<V>, cm: Mapping) {
    && (forall k :: k in m ==> Fold(cm, m[k].originalKey) in m')
    && (forall k' :: k' in m' ==> exists k :: k in m && m'[k'] == m[k] && k' == Fold(cm, m[k].originalKey))
  }

  /** Two entries whose original keys the mapping identifies. */
  predicate Collide<V>(m: CMap<V>, cm: Mapping) {
    exists k, l :: k in m && l in m && k != l && Same(cm, m[k].originalKey, m[l].originalKey)
  }

  class CaseMappingMap<V(==)> {
    var m: CMap<V>
    var casemap: Mapping

    ghost predicate Valid()
      reads this
    {
      Keyed(m, casemap)
    }

    constructor (cm: Mapping)
      ensures Valid() && m == map[] && casemap == cm
    {
      m, casemap := map[], cm;
    }

    method Has(name: string) returns (b: bool)
      ensures b == Get(m, casemap, name).Some?
    {
      var k := Casemap(casemap, name);
      b := k in m;
    }

    method Lookup(name: string) returns (v: Option<V>)
      ensures v == Get(m, casemap, name)
    {
      var k := Casemap(casemap, name);
      v := if k in m then Some(m[k].value) else None;
    }

    method Put(name: string, value: V)
      requires Valid()
      modifies this`m
      ensures Valid() && m == Set(old(m), casemap, name, value)
    {
      var nameCM := Casemap(casemap, name);
      if nameCM !in m {
        m := m[nameCM := Entry(name, value)];
        return;
      }
      var entry := m[nameCM];
      m := m[nameCM := entry.(value := value)];
    }

    method Delete(name: string)
      requires Valid()
      modifies this`m
      ensures Valid() && m == Del(old(m), casemap, name)
    {
      var k := Casemap(casemap, name);
      m := m - {k};
    }

    method SetCaseMapping(newCasemap: Mapping)
      requires Valid()
      modifies this
      ensures Valid() && casemap == newCasemap && Remapped(old(m), m, newCasemap)
    {
      casemap := newCasemap;
      var remapped: CMap<V> := map[];
      var todo := m.Keys;
      while todo != {}
        invariant m == old(m) && casemap == newCasemap && todo <= m.Keys
        invariant forall k :: k in m && k !in todo ==> Fold(casemap, m[k].originalKey) in remapped
        invariant forall k' :: k' in remapped ==> exists k ::
            k in m && remapped[k'] == m[k] && k' == Fold(casemap, m[k].originalKey)
      {
        var key :| key in todo;
        var k' := Casemap(casemap, m[key].originalKey);
        remapped := remapped[k' := m[key]];
        todo := todo - {key};
      }
      m := remapped;
    }
  }

  // ---- Changing the mapping

  /** After a change to any mapping, a name can be looked up exactly when the new mapping identifies it with the
      original key of some entry. */
  lemma {:induction false} RemappedNames<V>(m: CMap<V>, m': CMap<V>, b: Mapping, name: string)
    requires Remapped(m, m', b)
    ensures Get(m', b, name).Some? <==> exists k :: k in m && Same(b, name, m[k].originalKey)
  {
    if Get(m', b, name).Some? {
      var k :| k in m && m'[Fold(b, name)] == m[k] && Fold(b, name) == Fold(b, m[k].originalKey);
      assert Same(b, name, m[k].originalKey);
    }
  }

  /** A coarser mapping loses no name: whatever could be looked up still can. */
  lemma {:induction false} CoarserKeepsNames<V>(m: CMap<V>, m': CMap<V>, a: Mapping, b: Mapping, name: string)
    requires Keyed(m, a) && Remapped(m, m', b) && Coarser(a, b) && Get(m, a, name).Some?
    ensures Get(m', b, name).Some?
  {
    var k := Fold(a, name);
    CoarserIdentifiesMore(a, b, name, m[k].originalKey);
    RemappedNames(m, m', b, name);
  }

  /** Where no two original keys collide, a coarser mapping keeps every value. */
  lemma {:induction false} CoarserKeepsValues<V>(m: CMap<V>, m': CMap<V>, a: Mapping, b: Mapping, name: string)
    requires Keyed(m, a) && Remapped(m, m', b) && Coarser(a, b) && !Collide(m, b) && Get(m, a, name).Some?
    ensures Get(m', b, name) == Get(m, a, name)
  {
    var k := Fold(a, name);
    CoarserIdentifiesMore(a, b, name, m[k].originalKey);
    var k' := Fold(b, name);
    var l :| l in m && m'[k'] == m[l] && k' == Fold(b, m[l].originalKey);
    assert l == k by {
      assert Same(b, m[k].originalKey, m[l].originalKey);
    }
  }

  /** A finer mapping loses every name of an entry that it does not identify with an original key; for example this. */
  lemma {:induction false} FinerLosesName(m': CMap<int>)
    requires Remapped(Set(map[], Rfc1459, "{", 1), m', Ascii)
    ensures Get(Set(map[], Rfc1459, "{", 1), Rfc1459, "[") == Some(1) && Get(m', Ascii, "[").None?
  {
    var m := Set(map[], Rfc1459, "{", 1);
    assert Fold(Rfc1459, "{") == "[" == Fold(Rfc1459, "[");
    assert Fold(Ascii, "{") == "{" && Fold(Ascii, "[") == "[";
    RemappedNames(m, m', Ascii, "[");
  }

  function Image(keys: set<string>, f: string -> string): set<string> {
    set k | k in keys :: f(k)
  }

  ghost predicate Apart(keys: set<string>, f: string -> string) {
    forall k, l :: k in keys && l in keys && k != l ==> f(k) != f(l)
  }

  lemma {:induction false} ImageSize(keys: set<string>, f: string -> string)
    ensures |Image(keys, f)| <= |keys|
    ensures |Image(keys, f)| == |keys| <==> Apart(keys, f)
  {
    if keys != {} {
      var k :| k in keys;
      var rest := keys - {k};
      ImageSize(rest, f);
      assert Image(keys, f) == Image(rest, f) + {f(k)};
      if f(k) in Image(rest, f) {
        var l :| l in rest && f(l) == f(k);
        assert Image(keys, f) == Image(rest, f);
      } else {
        ApartExtends(keys, k, f);
      }
    }
  }

  lemma {:induction false} ApartExtends(keys: set<string>, k: string, f: string -> string)
    requires k in keys && f(k) !in Image(keys - {k}, f)
    ensures Apart(keys, f) <==> Apart(keys - {k}, f)
  {
    var rest := keys - {k};
    forall x | x in rest ensures f(x) != f(k) {
      assert f(x) in Image(rest, f);
    }
  }

  function NewKey<V>(m: CMap<V>, cm: Mapping): string -> string {
    k => if k in m then Fold(cm, m[k].originalKey) else k
  }

  /** Changing the mapping makes the map smaller exactly when original keys collide. */
  lemma {:induction false} SizeShrinks<V>(m: CMap<V>, m': CMap<V>, cm: Mapping)
    requires Remapped(m, m', cm)
    ensures |m'| <= |m|
    ensures |m'| < |m| <==> Collide(m, cm)
  {
    ImageSize(m.Keys, NewKey(m, cm));
    RemappedKeys(m, m', cm);
    CollideIsNotApart(m, cm);
  }

  lemma {:induction false} CollideIsNotApart<V>(m: CMap<V>, cm: Mapping)
    ensures Collide(m, cm) <==> !Apart(m.Keys, NewKey(m, cm))
  {
    var f := NewKey(m, cm);
    forall k, l | k in m && l in m ensures f(k) == f(l) <==> Same(cm, m[k].originalKey, m[l].originalKey) {
    }
  }

  lemma {:induction false} RemappedKeys<V>(m: CMap<V>, m': CMap<V>, cm: Mapping)
    requires Remapped(m, m', cm)
    ensures m'.Keys == Image(m.Keys, NewKey(m, cm))
  {
    var f := NewKey(m, cm);
    forall k' | k' in m' ensures k' in Image(m.Keys, f) {
      var k :| k in m && m'[k'] == m[k] && k' == Fold(cm, m[k].originalKey);
      assert f(k) == k';
    }
    forall k' | k' in Image(m.Keys, f) ensures k' in m' {
      var k :| k in m.Keys && f(k) == k';
    }
  }
}
