# imageio-ext utilities and the JPEG 2000 association box, in Dafny

This project models two small pieces of the imageio-ext library and proves
properties of them.

- `Utilities` (module `Utilities`, file `utilities.dfy`):
  - null-safe `equals`;
  - `sameInterfaces`, which checks whether two classes implement the same
    multiset of interfaces assignable to a base;
  - `spaces` and its lazily filled 20-slot cache `spacesFactory`;
  - `getShortName` and `getShortClassName`;
  - `adjustAttributeName`.
- `ASOCBox` (module `ASOCBox`, file `asoc_box.dfy`): the JPEG 2000
  association box (`asoc`). Its header is the 4-byte LBox and the 4-byte
  TBox of Annex I.4 of ISO/IEC 15444-1. The module has the box's constants,
  its constructor from payload bytes, and its `compose` and `parse`
  methods, which do nothing in this class.
- `JavaLang` (file `java_lang.dfy`): null references (`Option`), Java's
  `byte` and `int`, and the two's-complement wrap-around of `int`
  addition.

How the Java side is modelled:

- Java reflection is taken as input. A class is a `JavaClass` value: a
  named class, or an array of a component class. `getInterfaces()` is a
  function `interfaces`. `base.isAssignableFrom(c)` is a predicate
  `assignable(c)`. `obj.getClass()` is a function `getClass`.
- The static array `spacesFactory` is the `slots` array of a
  `SpacesFactory` object. `Spaces` fills that array in place.
- `sameInterfaces` copies `getInterfaces()` of the second class into a
  fresh array. It compacts the assignable entries to the front in place,
  then removes each match with `System.arraycopy`, as the Java code does.
- The box is an immutable record: total length, type tag and payload.

Where the documentation and the code disagree, the model follows the
code:

- The doc comment on `spacesFactory` (Utilities.java lines 70-73) says slot
  `i` holds a string of length `i + 1`. The code (lines 153-158) stores
  `i` blanks in slot `i`, including 19 blanks in the last slot.
  `CacheInvariant` states what the code does.
- ISO/IEC 15444-2 (JPX) defines `asoc` as a superbox whose payload is a
  sequence of child boxes. `ASOCBox.java` (lines 40-48) reads and writes
  none of them: `compose` returns null and `parse` is empty. The model
  does the same.

## Model

| member | source | states |
|---|---|---|
| `Utilities.Equals` | library/utilities/src/main/java/it/geosolutions/imageio/utilities/Utilities.java:81-84 | identical references (both null included) are equal; a null first argument equals only null; otherwise the result is the first object's `equals` on the second |
| `Utilities.EqualsIsNullSafeEquivalence` | library/utilities/src/main/java/it/geosolutions/imageio/utilities/Utilities.java:77-84 | when `equals` keeps its contract (false on null, reflexive, symmetric, transitive), `Equals` is reflexive, symmetric and transitive, true of two nulls and false of exactly one null |
| `Utilities.EqualsWithIdentity` | library/utilities/src/main/java/it/geosolutions/imageio/utilities/Utilities.java:81-84 | with identity as `equals`, `Equals` is exactly reference identity |
| `Utilities.BaseAssignable` | library/utilities/src/main/java/it/geosolutions/imageio/utilities/Utilities.java:108-114 | the base-assignable entries of a sequence, in order: never longer than the input, and every one is assignable |
| `Utilities.BaseAssignablePrefix` | library/utilities/src/main/java/it/geosolutions/imageio/utilities/Utilities.java:109-113 | one more loop step adds entry `i` to the filtered prefix when it is assignable, and nothing otherwise |
| `Utilities.BaseAssignableCount` | library/utilities/src/main/java/it/geosolutions/imageio/utilities/Utilities.java:86-89 | an assignable interface occurs among the filtered entries as often as in the input; a non-assignable one does not occur |
| `Utilities.BaseAssignableIgnoresOrder` | library/utilities/src/main/java/it/geosolutions/imageio/utilities/Utilities.java:86-92 | declaration order does not matter: inputs with equal multisets have equal filtered multisets |
| `Utilities.ArrayCopy` | library/utilities/src/main/java/it/geosolutions/imageio/utilities/Utilities.java:124 | `System.arraycopy`: the destination becomes its old entries before `destPos`, then the source range as it was before the call, then its old entries after the target range; so source and destination may be one array with overlapping ranges |
| `Utilities.CompactAssignable` | library/utilities/src/main/java/it/geosolutions/imageio/utilities/Utilities.java:108-114 | after the first loop, `c2[0..n)` is exactly the base-assignable entries of the original `c2`, in their original order; entries from `n` on are untouched |
| `Utilities.RemoveAt` | library/utilities/src/main/java/it/geosolutions/imageio/utilities/Utilities.java:124 | the shift after `--n` leaves in the first `n` entries the old first `n + 1` entries with entry `j` taken out, the others in their order; the entries from `n` on keep their old values |
| `Utilities.RemovedOccurrence` | library/utilities/src/main/java/it/geosolutions/imageio/utilities/Utilities.java:124 | dropping position `j` removes one occurrence of `s[j]` from the multiset |
| `Utilities.MissingInterface` | library/utilities/src/main/java/it/geosolutions/imageio/utilities/Utilities.java:120-128 | an assignable interface of `c1` that is not among the entries left in `c2` makes the multisets differ, so `return false` is right |
| `Utilities.RemoveFirst` | library/utilities/src/main/java/it/geosolutions/imageio/utilities/Utilities.java:121-127 | the inner loop: when `c` is not found it is not among the first `n` entries and the array is unchanged; when it is found, its first occurrence is taken out of the first `n` entries with the others kept in order, so those entries lose exactly one `c` as a multiset, and the entries from `n - 1` on keep their old values |
| `Utilities.MatchInterfaces` | library/utilities/src/main/java/it/geosolutions/imageio/utilities/Utilities.java:119-131 | the second loop: true exactly when the assignable interfaces of `c1` and the first `n` entries of `c2` are the same multiset |
| `Utilities.SameInterfaces` | library/utilities/src/main/java/it/geosolutions/imageio/utilities/Utilities.java:93-132 | true for the same class (both null included); false when exactly one is null; otherwise true iff the base-assignable interfaces of the two classes are equal as multisets |
| `Utilities.Filled` | library/utilities/src/main/java/it/geosolutions/imageio/utilities/Utilities.java:147-160 | the cache after a call keeps the invariant (slot `i` holds `i` blanks); slot `n` is filled for `n <= 19`; a filled slot is never changed or emptied; only slots `n` and 19 may change, and slot 19 is filled whenever a missing slot `n <= 19` is; a filled slot `n` leaves the cache unchanged |
| `Utilities.FilledIsIdempotent` | library/utilities/src/main/java/it/geosolutions/imageio/utilities/Utilities.java:150-160 | a second call with the same length leaves the cache as the first call left it |
| `Utilities.FilledBeyondCache` | library/utilities/src/main/java/it/geosolutions/imageio/utilities/Utilities.java:161-165 | a length above 19 never touches the cache |
| `Utilities.NewBlankString` | library/utilities/src/main/java/it/geosolutions/imageio/utilities/Utilities.java:153-155 | a `char[length]` filled with `' '` by `Arrays.fill` is the string of `length` blanks |
| `Utilities.SpacesFactory.constructor` | library/utilities/src/main/java/it/geosolutions/imageio/utilities/Utilities.java:75 | the cache starts with 20 empty (null) slots and satisfies the invariant |
| `Utilities.SpacesFactory.Spaces` | library/utilities/src/main/java/it/geosolutions/imageio/utilities/Utilities.java:142-166 | returns `max(length, 0)` characters, all `' '`; keeps the cache invariant; the new cache is `Filled(old cache, max(length, 0))` |
| `Utilities.LastIndexOf` | library/utilities/src/main/java/it/geosolutions/imageio/utilities/Utilities.java:192 | `lastIndexOf`: -1 iff the character is absent; otherwise a position holding it with none after it |
| `Utilities.SimpleName` | library/utilities/src/main/java/it/geosolutions/imageio/utilities/Utilities.java:192-194 | the suffix after the last `.`: it has no `.`, it is preceded by a `.` when the name has one, and it is the whole name when there is none |
| `Utilities.ReplaceChar` | library/utilities/src/main/java/it/geosolutions/imageio/utilities/Utilities.java:194 | `replace`: same length; every occurrence of `from` becomes `to`; every other character stays |
| `Utilities.ArraySuffix` | library/utilities/src/main/java/it/geosolutions/imageio/utilities/Utilities.java:195-201 | `d` copies of `[]` have length `2d` |
| `Utilities.ArraySuffixShape` | library/utilities/src/main/java/it/geosolutions/imageio/utilities/Utilities.java:195-201 | those `2d` characters alternate `[` and `]`, starting with `[` |
| `Utilities.AppendArraySuffix` | library/utilities/src/main/java/it/geosolutions/imageio/utilities/Utilities.java:196-200 | the `do`-`while` loop appends exactly `dimension` copies of `[]` to the name |
| `Utilities.ShortNameOfArray` | library/utilities/src/main/java/it/geosolutions/imageio/utilities/Utilities.java:187-201 | one more array dimension appends exactly one `[]` to the short name of the component |
| `Utilities.ShortNameOfClass` | library/utilities/src/main/java/it/geosolutions/imageio/utilities/Utilities.java:191-194 | a non-array class gets its simple name with `$` shown as `.` and no `[]`; a name without `.` and `$` is returned as it is |
| `Utilities.GetShortName` | library/utilities/src/main/java/it/geosolutions/imageio/utilities/Utilities.java:181-203 | null gives `"<*>"`; otherwise the text after the last `.` of the element class name with `$` replaced by `.`, then `[]` once per array dimension; its length is that text's length plus twice the dimension |
| `Utilities.GetShortClassName` | library/utilities/src/main/java/it/geosolutions/imageio/utilities/Utilities.java:214-216 | null gives `"<*>"`; otherwise the short name of the object's class |
| `Utilities.AdjustAttributeName` | library/utilities/src/main/java/it/geosolutions/imageio/utilities/Utilities.java:218-223 | every backslash becomes `_` and every other character stays; the length is kept; no backslash is left; a name without one is returned unchanged |
| `Utilities.AdjustAttributeNameIsIdempotent` | library/utilities/src/main/java/it/geosolutions/imageio/utilities/Utilities.java:218-223 | adjusting an adjusted name changes nothing |
| `JavaLang.WrapInt32` | plugin/kakadujp2/src/main/java/it/geosolutions/imageio/plugins/jp2k/box/ASOCBox.java:37 | Java `int` addition: the exact value when it is in range, and otherwise a value congruent to it modulo 2^32 |
| `ASOCBox.FromData` | plugin/kakadujp2/src/main/java/it/geosolutions/imageio/plugins/jp2k/box/ASOCBox.java:36-38 | the type is `BOX_TYPE` and the payload is handed on unchanged; the length is 8 plus the payload size (so at least 8) exactly when the payload has at most 2^31 - 9 bytes, and wraps to a negative `int` beyond |
| `ASOCBox.Compose` | plugin/kakadujp2/src/main/java/it/geosolutions/imageio/plugins/jp2k/box/ASOCBox.java:40-43 | no encoding (null) for any box |
| `ASOCBox.Parse` | plugin/kakadujp2/src/main/java/it/geosolutions/imageio/plugins/jp2k/box/ASOCBox.java:45-48 | the box after `parse` is the box before it |
| `ASOCBox.TagBytes` | plugin/kakadujp2/src/main/java/it/geosolutions/imageio/plugins/jp2k/box/ASOCBox.java:26 | a type tag as the four bytes of the TBox field, each in 0..255 |
| `ASOCBox.TagBytesRoundTrip` | plugin/kakadujp2/src/main/java/it/geosolutions/imageio/plugins/jp2k/box/ASOCBox.java:26 | reading the four big-endian bytes of any tag back gives the tag as an unsigned 32-bit value, which is the tag itself when it is non-negative |
| `ASOCBox.BoxTypeSpellsName` | plugin/kakadujp2/src/main/java/it/geosolutions/imageio/plugins/jp2k/box/ASOCBox.java:26-28 | the bytes of `BOX_TYPE` are 0x61 0x73 0x6F 0x63, the ASCII codes of `NAME = "asoc"`, and `NAME` read as a big-endian tag is `BOX_TYPE` |
| `ASOCBox.TypeIndependentOfData` | plugin/kakadujp2/src/main/java/it/geosolutions/imageio/plugins/jp2k/box/ASOCBox.java:37 | every box built from bytes has type `BOX_TYPE`, whatever the payload |
| `ASOCBox.FromDataIsInjective` | plugin/kakadujp2/src/main/java/it/geosolutions/imageio/plugins/jp2k/box/ASOCBox.java:37 | the payload is kept: two boxes are equal exactly when their payloads are |
| `ASOCBox.FourBytePayload` | plugin/kakadujp2/src/main/java/it/geosolutions/imageio/plugins/jp2k/box/ASOCBox.java:36-38 | a four-byte payload gives a twelve-byte box |

## Left out

- `Utilities.getURIFromSource`: it only wraps `java.net.URI`, `File`, `URL` and `FileImageInputStreamExt` and swallows their exceptions. These are foreign calls.
- Java reflection itself (`getInterfaces`, `isAssignableFrom`, `getComponentType`, `getName`, `getClass`): its results are inputs to the model.
- `String.intern()` identity and the unsynchronised use of the cache by several threads in `spaces`: the cache is single-threaded and strings are compared by value.
- Utilities.SpacesFactory.Spaces: does not model running out of memory when it allocates a very large `char[length]`.
- Utilities.AdjustAttributeName: a null argument throws `NullPointerException` in Java; the model's strings are never null.
- Utilities.ArrayCopy: requires its ranges to be in bounds instead of throwing `IndexOutOfBoundsException`. `sameInterfaces` always passes in-bounds ranges.
- ASOCBox.FromData: the payload is never null, so the `NullPointerException` that `new ASOCBox(null)` throws at `data.length` is not modelled.
- Utilities.SameInterfaces: `assignable` is a total predicate, so the `NullPointerException` that `base.isAssignableFrom` throws for a null `base` once an interface is examined is not modelled.
- Utilities.GetShortName: Dafny strings are sequences of Unicode scalar values while Java's `length()` counts UTF-16 code units, so the length ensures differs from Java for class names with supplementary characters.
- ASOCBox.FromData: requires `|data| <= 2^31 - 1`, the largest length a Java array can have.
- `ASOCBox(Node)` and the `DefaultJP2KBox` base class: the base class and the DOM handling are not part of this model. `JP2K_MD_NAME` is kept only as a constant.
- Child boxes: this class parses and composes none of the boxes inside an `asoc` superbox, it does not handle the extended XLBox length, and there is no `parse(compose(b))` round trip to state.
