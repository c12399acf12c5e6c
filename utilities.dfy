/**
 * The general utilities of `it.geosolutions.imageio.utilities.Utilities`:
 * null-safe equality, comparison of the interfaces two classes implement,
 * cached blank strings, short class names and attribute-name adjustment.
 *
 * Java reflection is taken as input: a class is a `JavaClass` value, its
 * `getInterfaces()` is the function `interfaces`, and
 * `base.isAssignableFrom(c)` is the predicate `assignable(c)`.
 */
module Utilities {
  import opened JavaLang

  // ---------------------------------------------------------------------
  // equals
  // ---------------------------------------------------------------------

  /**
   * `Utilities.equals(object1, object2)`. Dafny's `==` on `T` is Java's
   * reference identity and `equalsMethod(x, o)` is `x.equals(o)`.
   */
  function Equals<T(==)>(object1: Option<T>, object2: Option<T>, equalsMethod: (T, Option<T>) -> bool): (r: bool)
    ensures object1 == object2 ==> r
    ensures object1.None? ==> (r <==> object2.None?)
    ensures object1.Some? && object1 != object2 ==> (r <==> equalsMethod(object1.value, object2))
  {
    object1 == object2 || (object1.Some? && equalsMethod(object1.value, object2))
  }

  /** The parts of the `Object.equals` contract that `Equals` relies on. */
  ghost predicate EqualsContract<T(!new)>(equalsMethod: (T, Option<T>) -> bool)
  {
    && (forall x :: !equalsMethod(x, None))
    && (forall x :: equalsMethod(x, Some(x)))
    && (forall x, y :: equalsMethod(x, Some(y)) == equalsMethod(y, Some(x)))
    && (forall x, y, z :: equalsMethod(x, Some(y)) && equalsMethod(y, Some(z)) ==> equalsMethod(x, Some(z)))
  }

  /**
   * For an `equals` that keeps its contract, `Equals` is an equivalence that
   * is true of two nulls, false of exactly one null and otherwise asks `equals`.
   */
  lemma EqualsIsNullSafeEquivalence<T(!new)>(a: Option<T>, b: Option<T>, c: Option<T>,
                                              equalsMethod: (T, Option<T>) -> bool)
    requires EqualsContract(equalsMethod)
    ensures Equals(a, a, equalsMethod)
    ensures Equals(a, b, equalsMethod) == Equals(b, a, equalsMethod)
    ensures Equals(a, b, equalsMethod) && Equals(b, c, equalsMethod) ==> Equals(a, c, equalsMethod)
    ensures Equals(a, b, equalsMethod) <==>
              (a.None? && b.None?) || (a.Some? && b.Some? && equalsMethod(a.value, b))
  {
  }

  /** With `Object.equals` itself (identity), `Equals` is plain identity. */
  lemma EqualsWithIdentity<T(!new)>(a: Option<T>, b: Option<T>, equalsMethod: (T, Option<T>) -> bool)
    requires forall x, o :: equalsMethod(x, o) == (o == Some(x))
    ensures Equals(a, b, equalsMethod) == (a == b)
  {
  }

  // ---------------------------------------------------------------------
  // sameInterfaces
  // ---------------------------------------------------------------------

  /** The elements of `s` that are assignable to the base, in their order in `s`. */
  function BaseAssignable<C(!new)>(s: seq<C>, assignable: C -> bool): (r: seq<C>)
    ensures |r| <= |s|
    ensures forall k :: 0 <= k < |r| ==> assignable(r[k])
  {
    if s == [] then []
    else
      var last := s[|s| - 1];
      BaseAssignable(s[..|s| - 1], assignable) + (if assignable(last) then [last] else [])
  }

  /** Each assignable entry occurs as often among the assignable entries as in `s`; no other does. */
  lemma {:induction false} BaseAssignableCount<C(!new)>(s: seq<C>, assignable: C -> bool, c: C)
    ensures multiset(BaseAssignable(s, assignable))[c] == if assignable(c) then multiset(s)[c] else 0
  {
    if s != [] {
      var last := s[|s| - 1];
      assert s == s[..|s| - 1] + [last];
      BaseAssignableCount(s[..|s| - 1], assignable, c);
    }
  }

  /** One more entry of `s` adds that entry to the assignable ones when it is assignable. */
  lemma BaseAssignablePrefix<C(!new)>(s: seq<C>, i: nat, assignable: C -> bool)
    requires i < |s|
    ensures BaseAssignable(s[..i + 1], assignable) ==
            BaseAssignable(s[..i], assignable) + if assignable(s[i]) then [s[i]] else []
  {
    assert s[..i + 1][..i] == s[..i];
  }

  /** Declaration order does not matter: only the multiset of interfaces is compared. */
  lemma {:induction false} BaseAssignableIgnoresOrder<C(!new)>(s: seq<C>, t: seq<C>, assignable: C -> bool)
    requires multiset(s) == multiset(t)
    ensures multiset(BaseAssignable(s, assignable)) == multiset(BaseAssignable(t, assignable))
  {
    var bs, bt := multiset(BaseAssignable(s, assignable)), multiset(BaseAssignable(t, assignable));
    forall c ensures bs[c] == bt[c] {
      BaseAssignableCount(s, assignable, c);
      BaseAssignableCount(t, assignable, c);
    }
  }

  /**
   * `System.arraycopy(src, srcPos, dest, destPos, length)`: the copy behaves
   * as if it went through a temporary array, so `src` and `dest` may be the
   * same array with overlapping ranges.
   */
  method ArrayCopy<T>(src: array<T>, srcPos: nat, dest: array<T>, destPos: nat, length: nat)
    requires srcPos + length <= src.Length && destPos + length <= dest.Length
    modifies dest
    ensures dest[..] == old(dest[..destPos]) + old(src[srcPos..srcPos + length]) + old(dest[destPos + length..])
  {
    var tmp := src[srcPos..srcPos + length];
    ghost var expected := dest[..destPos] + tmp + dest[destPos + length..];
    for m := 0 to length
      invariant forall k :: 0 <= k < dest.Length ==>
                  dest[k] == if destPos <= k < destPos + m then tmp[k - destPos] else old(dest[k])
    {
      dest[destPos + m] := tmp[m];
    }
    assert dest[..] == expected;
  }

  /**
   * The first loop of `sameInterfaces`: moves the assignable entries of `c2`
   * to its front, in their order, and returns how many there are.
   */
  method CompactAssignable<C(!new)>(c2: array<C>, assignable: C -> bool) returns (n: nat)
    modifies c2
    ensures n <= c2.Length
    ensures c2[..n] == BaseAssignable(old(c2[..]), assignable)
    ensures forall k :: n <= k < c2.Length ==> c2[k] == old(c2[k])
  {
    n := 0;
    for i := 0 to c2.Length
      invariant n <= i
      invariant c2[..n] == BaseAssignable(old(c2[..i]), assignable)
      invariant forall k :: n <= k < c2.Length ==> c2[k] == old(c2[k])
    {
      var c := c2[i];
      BaseAssignablePrefix(old(c2[..]), i, assignable);
      assert old(c2[..])[..i + 1] == old(c2[..i + 1]);
      if assignable(c) {
        c2[n] := c;
        n := n + 1;
      }
    }
    assert old(c2[..c2.Length]) == old(c2[..]);
  }

  /**
   * `System.arraycopy(c2, j + 1, c2, j, n - j)` once `n` has been decremented:
   * removes the entry at `j` from the first `n + 1` entries of `c2`, which
   * are `before`.
   */
  method RemoveAt<C>(c2: array<C>, j: nat, n: nat, ghost before: seq<C>)
    requires j <= n < c2.Length && c2[..n + 1] == before
    modifies c2
    ensures c2[..n] == before[..j] + before[j + 1..]
    ensures c2[n..] == old(c2[n..])
  {
    ghost var whole := c2[..];
    assert whole[..j] == before[..j] && whole[j + 1..n + 1] == before[j + 1..];
    ArrayCopy(c2, j + 1, c2, j, n - j);
    assert c2[..] == before[..j] + before[j + 1..] + whole[n..];
    assert c2[..][..n] == before[..j] + before[j + 1..];
    assert c2[..][n..] == whole[n..];
  }

  /** Removing the entry at `j` removes exactly one occurrence of it. */
  lemma RemovedOccurrence<C>(s: seq<C>, j: nat)
    requires j < |s|
    ensures multiset(s[..j] + s[j + 1..]) + multiset{s[j]} == multiset(s)
  {
    assert s == s[..j] + [s[j]] + s[j + 1..];
  }

  /**
   * An assignable interface of `c1` that is missing from what is left of
   * `c2` makes the two multisets differ.
   */
  lemma MissingInterface<C(!new)>(c1: seq<C>, i: nat, rest: seq<C>, f2: multiset<C>, assignable: C -> bool)
    requires i < |c1| && assignable(c1[i]) && c1[i] !in rest
    requires multiset(BaseAssignable(c1[..i], assignable)) + multiset(rest) == f2
    ensures multiset(BaseAssignable(c1, assignable)) != f2
  {
    var c := c1[i];
    assert c1 == c1[..i] + [c] + c1[i + 1..];
    assert multiset(c1)[c] >= multiset(c1[..i])[c] + 1;
    BaseAssignableCount(c1, assignable, c);
    BaseAssignableCount(c1[..i], assignable, c);
  }

  /**
   * The inner loop of `sameInterfaces`: looks for `c` among the first `n`
   * entries of `c2` (which are `remaining`) and, at its first occurrence,
   * shifts the entries after it one place down. Reports whether it was found.
   */
  method RemoveFirst<C(==)>(c2: array<C>, n: nat, c: C, ghost remaining: seq<C>)
    returns (found: bool)
    requires n <= c2.Length && c2[..n] == remaining
    modifies c2
    ensures !found ==> c !in remaining && c2[..] == old(c2[..])
    ensures found ==> exists j :: 0 <= j < n && remaining[j] == c && c !in remaining[..j] &&
                                  c2[..n - 1] == remaining[..j] + remaining[j + 1..]
    ensures found ==> 0 < n && multiset(c2[..n - 1]) + multiset{c} == multiset(remaining)
    ensures found ==> c2[n - 1..] == old(c2[n - 1..])
  {
    var j := 0;
    while j < n
      invariant 0 <= j <= n
      invariant c2[..] == old(c2[..])
      invariant c !in remaining[..j]
    {
      if c == c2[j] {
        assert remaining[j] == c;
        RemoveAt(c2, j, n - 1, remaining);
        RemovedOccurrence(remaining, j);
        return true;
      }
      j := j + 1;
    }
    return false;
  }

  /**
   * The second loop of `sameInterfaces`: every assignable interface of `c1`
   * is looked up among the first `n` entries of `c2` and removed there; the
   * result is true exactly when the assignable interfaces of `c1` and those
   * entries are the same multiset.
   */
  method MatchInterfaces<C(==,!new)>(c1: seq<C>, c2: array<C>, n0: nat, assignable: C -> bool)
    returns (r: bool)
    requires n0 <= c2.Length
    modifies c2
    ensures r <==> multiset(BaseAssignable(c1, assignable)) == multiset(old(c2[..n0]))
  {
    ghost var f2 := multiset(c2[..n0]);
    ghost var done: multiset<C> := multiset{};
    var n := n0;
    assert c1[..0] == [];
    for i := 0 to |c1|
      invariant 0 <= n <= c2.Length
      invariant done == multiset(BaseAssignable(c1[..i], assignable))
      invariant done + multiset(c2[..n]) == f2
    {
      var c := c1[i];
      BaseAssignablePrefix(c1, i, assignable);
      if assignable(c) {
        ghost var remaining := c2[..n];
        var found := RemoveFirst(c2, n, c, remaining);
        if !found {
          MissingInterface(c1, i, remaining, f2, assignable);
          return false;
        }
        ghost var left := c2[..n - 1];
        assert multiset(left) + multiset{c} == multiset(remaining);
        n := n - 1;
        assert (done + multiset{c}) + multiset(left) == f2;
        done := done + multiset{c};
      }
    }
    assert c1[..|c1|] == c1;
    return n == 0;
  }

  /**
   * `Utilities.sameInterfaces(object1, object2, base)`: true when both
   * classes are the same class (both null included), false when exactly one
   * is null, and otherwise true exactly when the interfaces assignable to the
   * base form the same multiset for both.
   */
  method SameInterfaces<C(==,!new)>(object1: Option<C>, object2: Option<C>,
                                    interfaces: C -> seq<C>, assignable: C -> bool)
    returns (r: bool)
    ensures object1 == object2 ==> r
    ensures object1 != object2 && (object1.None? || object2.None?) ==> !r
    ensures object1.Some? && object2.Some? && object1 != object2 ==>
              (r <==> multiset(BaseAssignable(interfaces(object1.value), assignable))
                      == multiset(BaseAssignable(interfaces(object2.value), assignable)))
  {
    if object1 == object2 {
      return true;
    }
    if object1.None? || object2.None? {
      return false;
    }
    var c1 := interfaces(object1.value);
    var s2 := interfaces(object2.value);
    var c2 := new C[|s2|](k requires 0 <= k < |s2| => s2[k]);
    assert c2[..] == s2;
    var n := CompactAssignable(c2, assignable);
    r := MatchInterfaces(c1, c2, n, assignable);
  }

  // ---------------------------------------------------------------------
  // spaces
  // ---------------------------------------------------------------------

  /** The number of slots of the blank-string cache. */
  const SPACES_SLOTS: nat := 20

  /** The last slot, which holds the longest cached string. */
  const LAST: nat := SPACES_SLOTS - 1

  /** The string of `n` blanks. */
  function Blanks(n: nat): string
  {
    seq(n, _ => ' ')
  }

  /** Every filled slot `i` of the cache holds `i` blanks. */
  predicate CacheInvariant(cache: seq<Option<string>>)
  {
    |cache| == SPACES_SLOTS &&
    forall i :: 0 <= i < |cache| && cache[i].Some? ==> cache[i].value == Blanks(i)
  }

  /**
   * The cache after a call of `spaces` for the clamped length `n`: a missing
   * slot `n` is cut from the last slot, which is made first when missing.
   */
  function Filled(cache: seq<Option<string>>, n: nat): (r: seq<Option<string>>)
    requires CacheInvariant(cache)
    ensures CacheInvariant(r)
    ensures n <= LAST ==> r[n] == Some(Blanks(n))
    ensures forall i :: 0 <= i < |r| && i != n && i != LAST ==> r[i] == cache[i]
    ensures n <= LAST && cache[n].Some? ==> r == cache
    ensures forall i :: 0 <= i < |cache| && cache[i].Some? ==> r[i] == cache[i]
    ensures n <= LAST && cache[n].None? ==> r[LAST].Some?
  {
    if n > LAST || cache[n].Some? then cache
    else
      var withLast := if cache[LAST].None? then cache[LAST := Some(Blanks(LAST))] else cache;
      assert withLast[LAST].value[..n] == Blanks(n);
      withLast[n := Some(withLast[LAST].value[..n])]
  }

  /** A second call of `spaces` with the same length leaves the cache as it is. */
  lemma FilledIsIdempotent(cache: seq<Option<string>>, n: nat)
    requires CacheInvariant(cache)
    ensures Filled(Filled(cache, n), n) == Filled(cache, n)
  {
  }

  /** Lengths beyond the cache never touch it. */
  lemma FilledBeyondCache(cache: seq<Option<string>>, n: nat)
    requires CacheInvariant(cache) && n > LAST
    ensures Filled(cache, n) == cache
  {
  }

  /** `new String(blancs)` for a fresh `char[length]` filled by `Arrays.fill(blancs, ' ')`. */
  method NewBlankString(length: nat) returns (s: string)
    ensures s == Blanks(length)
  {
    var blancs := new char[length];
    for k := 0 to length
      invariant forall m :: 0 <= m < k ==> blancs[m] == ' '
    {
      blancs[k] := ' ';
    }
    s := blancs[..];
  }

  /** The static `spacesFactory` array of `Utilities` and the method that fills it. */
  class SpacesFactory {
    const slots: array<Option<string>>

    ghost predicate Valid()
      reads slots
    {
      CacheInvariant(slots[..])
    }

    constructor ()
      ensures Valid() && fresh(slots)
      ensures forall i :: 0 <= i < slots.Length ==> slots[i].None?
    {
      slots := new Option<string>[SPACES_SLOTS](_ => None);
    }

    /**
     * `Utilities.spaces(length)`: a string of `length` blanks, negative
     * lengths counting as 0; lengths up to `LAST` come from the cache.
     */
    method Spaces(length: int32) returns (s: string)
      requires Valid()
      modifies slots
      ensures Valid()
      ensures |s| == (if length < 0 then 0 else length as int)
      ensures forall k :: 0 <= k < |s| ==> s[k] == ' '
      ensures slots[..] == Filled(old(slots[..]), if length < 0 then 0 else length as int)
    {
      var len := length;
      if len < 0 {
        len := 0;
      }
      var n := len as int;
      if n <= LAST {
        if slots[n].None? {
          if slots[LAST].None? {
            var blancs := NewBlankString(LAST);
            slots[LAST] := Some(blancs);
          }
          slots[n] := Some(slots[LAST].value[..n]);
        }
        s := slots[n].value;
      } else {
        s := NewBlankString(n);
      }
    }
  }

  // ---------------------------------------------------------------------
  // getShortName, getShortClassName
  // ---------------------------------------------------------------------

  /** A class as reflection sees it: a named class, or an array of a component class. */
  datatype JavaClass = Class(name: string) | ArrayClass(component: JavaClass)
  {
    /** `getComponentType()`: the component of an array class, null otherwise. */
    function ComponentType(): (r: Option<JavaClass>)
      ensures r.Some? <==> ArrayClass?
      ensures r.Some? ==> r.value < this
    {
      if ArrayClass? then Some(component) else None
    }
  }

  /** The number of array dimensions of `c`. */
  function Dimension(c: JavaClass): nat
  {
    match c
    case Class(_) => 0
    case ArrayClass(e) => 1 + Dimension(e)
  }

  /** `getName()` of the element class of `c`, once every array dimension is stripped. */
  function ElementName(c: JavaClass): string
  {
    match c
    case Class(name) => name
    case ArrayClass(e) => ElementName(e)
  }

  /** `s.lastIndexOf(ch)`: the last position of `ch` in `s`, or -1. */
  function LastIndexOf(s: string, ch: char): (r: int)
    ensures -1 <= r < |s|
    ensures r == -1 <==> ch !in s
    ensures r >= 0 ==> s[r] == ch
    ensures forall k :: r < k < |s| ==> s[k] != ch
  {
    if s == [] then -1
    else if s[|s| - 1] == ch then |s| - 1
    else LastIndexOf(s[..|s| - 1], ch)
  }

  /** The text after the last `.` of a class name, or the whole name when it has none. */
  function SimpleName(s: string): (r: string)
    ensures '.' !in r
    ensures |r| <= |s| && s == s[..|s| - |r|] + r
    ensures '.' in s ==> s[|s| - |r| - 1] == '.'
    ensures '.' !in s ==> r == s
  {
    s[LastIndexOf(s, '.') + 1..]
  }

  /** `s.replace(from, to)`: every `from` replaced by `to`. */
  function ReplaceChar(s: string, from: char, to: char): (r: string)
    ensures |r| == |s|
    ensures forall k :: 0 <= k < |s| ==> r[k] == if s[k] == from then to else s[k]
  {
    if s == [] then []
    else ReplaceChar(s[..|s| - 1], from, to) + [if s[|s| - 1] == from then to else s[|s| - 1]]
  }

  /** `"[]"` once per array dimension. */
  function ArraySuffix(dimension: nat): (r: string)
    ensures |r| == 2 * dimension
  {
    if dimension == 0 then "" else ArraySuffix(dimension - 1) + "[]"
  }

  /** The suffix alternates `[` and `]`, starting with `[`. */
  lemma {:induction false} ArraySuffixShape(dimension: nat, k: nat)
    requires k < 2 * dimension
    ensures ArraySuffix(dimension)[k] == if k % 2 == 0 then '[' else ']'
  {
    if k < 2 * (dimension - 1) {
      ArraySuffixShape(dimension - 1, k);
    }
  }

  /** The short name of a non-null class. */
  function ShortName(c: JavaClass): string
  {
    ReplaceChar(SimpleName(ElementName(c)), '$', '.') + ArraySuffix(Dimension(c))
  }

  /** An array class is named after its component, followed by one `[]`. */
  lemma {:induction false} ShortNameOfArray(c: JavaClass)
    ensures ShortName(ArrayClass(c)) == ShortName(c) + "[]"
  {
    var prefix := ReplaceChar(SimpleName(ElementName(c)), '$', '.');
    var suffix := ArraySuffix(Dimension(c));
    assert ElementName(ArrayClass(c)) == ElementName(c);
    assert Dimension(ArrayClass(c)) == Dimension(c) + 1;
    assert ArraySuffix(Dimension(c) + 1) == suffix + "[]";
  }

  /** A plain class is named by its simple name with `$` shown as `.`, with no `[]`. */
  lemma ShortNameOfClass(name: string)
    ensures ShortName(Class(name)) == ReplaceChar(SimpleName(name), '$', '.')
    ensures '.' !in name && '$' !in name ==> ShortName(Class(name)) == name
  {
    if '.' !in name && '$' !in name {
      assert ReplaceChar(name, '$', '.') == name;
    }
  }

  /**
   * `Utilities.getShortName(classe)`: `"<*>"` for null; otherwise the name of
   * the element class after its last `.`, with `$` shown as `.`, followed by
   * `[]` once per array dimension.
   */
  method GetShortName(classe: Option<JavaClass>) returns (name: string)
    ensures classe.None? ==> name == "<*>"
    ensures classe.Some? ==> name == ShortName(classe.value)
    ensures classe.Some? ==>
              |name| == |SimpleName(ElementName(classe.value))| + 2 * Dimension(classe.value)
  {
    if classe.None? {
      return "<*>";
    }
    var c := classe.value;
    var dimension := 0;
    var el := c.ComponentType();
    while el.Some?
      invariant el == c.ComponentType()
      invariant dimension + Dimension(c) == Dimension(classe.value)
      invariant ElementName(c) == ElementName(classe.value)
      decreases c
    {
      c := el.value;
      dimension := dimension + 1;
      el := c.ComponentType();
    }
    assert c.Class? && ElementName(c) == c.name && dimension == Dimension(classe.value);
    name := c.name;
    var lower := LastIndexOf(name, '.');
    var upper := |name|;
    assert name[lower + 1..upper] == SimpleName(ElementName(classe.value));
    name := ReplaceChar(name[lower + 1..upper], '$', '.');
    if dimension != 0 {
      name := AppendArraySuffix(name, dimension);
    }
  }

  /** The `do`-`while` loop of `getShortName`: appends `"[]"` `dimension` times to `name`. */
  method AppendArraySuffix(name: string, dimension: nat) returns (buffer: string)
    requires dimension != 0
    ensures buffer == name + ArraySuffix(dimension)
  {
    buffer := name;
    var remaining := dimension;
    while true
      invariant 0 < remaining <= dimension
      invariant buffer == name + ArraySuffix(dimension - remaining)
      decreases remaining
    {
      buffer := buffer + "[]";
      remaining := remaining - 1;
      if remaining == 0 {
        break;
      }
    }
  }

  /** `Utilities.getShortClassName(object)`: the short name of `obj.getClass()`, `"<*>"` for null. */
  method GetShortClassName<T>(obj: Option<T>, getClass: T -> JavaClass) returns (name: string)
    ensures obj.None? ==> name == "<*>"
    ensures obj.Some? ==> name == ShortName(getClass(obj.value))
  {
    name := GetShortName(if obj.Some? then Some(getClass(obj.value)) else None);
  }

  // ---------------------------------------------------------------------
  // adjustAttributeName
  // ---------------------------------------------------------------------

  /** `Utilities.adjustAttributeName(attributeName)`: every `\` becomes `_`. */
  function AdjustAttributeName(attributeName: string): (r: string)
    ensures |r| == |attributeName|
    ensures forall k :: 0 <= k < |r| ==> r[k] == if attributeName[k] == '\\' then '_' else attributeName[k]
    ensures '\\' !in r
    ensures '\\' !in attributeName ==> r == attributeName
  {
    if '\\' in attributeName then ReplaceChar(attributeName, '\\', '_') else attributeName
  }

  /** Adjusting an adjusted name changes nothing. */
  lemma AdjustAttributeNameIsIdempotent(attributeName: string)
    ensures AdjustAttributeName(AdjustAttributeName(attributeName)) == AdjustAttributeName(attributeName)
  {
  }
}
