/**
 * Payload sanitisation over JSON trees. All three traversals stop below depth 10; the string cleaner and the
 * SQL patterns are left uninterpreted.
 */
module Sanitization {
  import opened Foundations

  /** Objects list their own enumerable properties in enumeration order. */
  datatype Json = Str(s: string) | Arr(items: seq<Json>) | Obj(fields: seq<Field>) | Other(n: int)

  datatype Field = Field(key: string, value: Json)

  type Cleaner = string -> string

  const MAX_DEPTH := 10

  /** Assigning this property of a fresh object sets its prototype, so it does not become an own property. */
  const PROTO := "__proto__"

  function Levels(depth: nat): nat { if depth > MAX_DEPTH then 0 else MAX_DEPTH + 1 - depth }

  // ---- What the traversals see ----

  /** String leaves, left to right. */
  function CollectStrings(v: Json, depth: nat): seq<string>
    decreases Levels(depth), 0
  {
    if depth > MAX_DEPTH then []
    else match v
      case Str(s) => [s]
      case Arr(items) => CollectItems(items, depth + 1)
      case Obj(fields) => CollectFields(fields, depth + 1)
      case Other(_) => []
  }

  function CollectItems(items: seq<Json>, depth: nat): seq<string>
    decreases Levels(depth), 1, |items|
  {
    if items == [] then []
    else CollectItems(items[..|items| - 1], depth) + CollectStrings(items[|items| - 1], depth)
  }

  function CollectFields(fields: seq<Field>, depth: nat): seq<string>
    decreases Levels(depth), 1, |fields|
  {
    if fields == [] then []
    else CollectFields(fields[..|fields| - 1], depth) + CollectStrings(fields[|fields| - 1].value, depth)
  }

  /** The keys of every visited object. */
  function VisibleKeys(v: Json, depth: nat): set<string>
    decreases Levels(depth), 0
  {
    if depth > MAX_DEPTH then {}
    else match v
      case Arr(items) => KeysOfItems(items, depth + 1)
      case Obj(fields) => KeysOfFields(fields, depth + 1)
      case _ => {}
  }

  function KeysOfItems(items: seq<Json>, depth: nat): set<string>
    decreases Levels(depth), 1
  {
    set i, k | 0 <= i < |items| && k in VisibleKeys(items[i], depth) :: k
  }

  function KeysOfFields(fields: seq<Field>, depth: nat): set<string>
    decreases Levels(depth), 1
  {
    (set f | f in fields :: f.key) + set i, k | 0 <= i < |fields| && k in VisibleKeys(fields[i].value, depth) :: k
  }

  predicate IsOperator(key: string) { "$" <= key }

  predicate HasOperatorKey(v: Json, depth: nat) { exists k | k in VisibleKeys(v, depth) :: IsOperator(k) }

  /** No visited object has an own property named `__proto__`. */
  predicate Plain(v: Json, depth: nat) { PROTO !in VisibleKeys(v, depth) }

  predicate Changes(san: Cleaner, v: Json, depth: nat) { exists s | s in CollectStrings(v, depth) :: san(s) != s }

  // ---- What sanitising builds ----

  function Clean(san: Cleaner, v: Json, depth: nat): Json
    decreases Levels(depth), 0
  {
    if depth > MAX_DEPTH then v
    else match v
      case Str(s) => Str(san(s))
      case Arr(items) => Arr(CleanItems(san, items, depth + 1))
      case Obj(fields) => Obj(CleanFields(san, fields, depth + 1))
      case Other(_) => v
  }

  function CleanItems(san: Cleaner, items: seq<Json>, depth: nat): seq<Json>
    decreases Levels(depth), 1
  {
    seq(|items|, i requires 0 <= i < |items| => Clean(san, items[i], depth))
  }

  function CleanFields(san: Cleaner, fields: seq<Field>, depth: nat): seq<Field>
    decreases Levels(depth), 1, |fields|
  {
    if fields == [] then []
    else
      var last := fields[|fields| - 1];
      CleanFields(san, fields[..|fields| - 1], depth)
      + if last.key == PROTO then [] else [Field(last.key, Clean(san, last.value, depth))]
  }

  /** The reference: the tree without its `__proto__` properties, nothing else touched. */
  function Strip(v: Json, depth: nat): Json { Clean(Same(), v, depth) }

  function Same(): Cleaner { (s: string) => s }

  /** The tree with every visited string leaf blanked: its shape, its keys, and everything below depth 10. */
  function Skeleton(v: Json, depth: nat): Json
    decreases Levels(depth), 0
  {
    if depth > MAX_DEPTH then v
    else match v
      case Str(_) => Str("")
      case Arr(items) => Arr(seq(|items|, i requires 0 <= i < |items| => Skeleton(items[i], depth + 1)))
      case Obj(fields) =>
        Obj(seq(|fields|, i requires 0 <= i < |fields| => Field(fields[i].key, Skeleton(fields[i].value, depth + 1))))
      case Other(_) => v
  }

  function Mapped(san: Cleaner, ss: seq<string>): seq<string> { seq(|ss|, i requires 0 <= i < |ss| => san(ss[i])) }

  lemma MappedJoins(san: Cleaner, a: seq<string>, b: seq<string>)
    ensures Mapped(san, a + b) == Mapped(san, a) + Mapped(san, b)
  {
  }

  // ---- The homomorphism ----

  /** The cleaned strings are the cleaner applied to the strings, in order. */
  lemma {:induction false} CleanedStrings(san: Cleaner, v: Json, depth: nat)
    ensures CollectStrings(Clean(san, v, depth), depth) == Mapped(san, CollectStrings(Strip(v, depth), depth))
    decreases Levels(depth), 0
  {
    if depth <= MAX_DEPTH {
      match v
      case Str(s) =>
      case Arr(items) =>
        CleanedItems(san, items, depth + 1);
        assert Clean(san, v, depth) == Arr(CleanItems(san, items, depth + 1)) && Strip(v, depth) == Arr(CleanItems(Same(), items, depth + 1));
      case Obj(fields) =>
        CleanedFields(san, fields, depth + 1);
        assert Clean(san, v, depth) == Obj(CleanFields(san, fields, depth + 1)) && Strip(v, depth) == Obj(CleanFields(Same(), fields, depth + 1));
      case Other(_) =>
    }
  }

  lemma {:induction false} CleanedItems(san: Cleaner, items: seq<Json>, depth: nat)
    ensures CollectItems(CleanItems(san, items, depth), depth) == Mapped(san, CollectItems(CleanItems(Same(), items, depth), depth))
    decreases Levels(depth), 1, |items|
  {
    if items != [] {
      var front, last := items[..|items| - 1], items[|items| - 1];
      CleanedItems(san, front, depth);
      CleanedStrings(san, last, depth);
      assert CleanItems(san, items, depth)[..|items| - 1] == CleanItems(san, front, depth);
      assert CleanItems(Same(), items, depth)[..|items| - 1] == CleanItems(Same(), front, depth);
      MappedJoins(san, CollectItems(CleanItems(Same(), front, depth), depth), CollectStrings(Strip(last, depth), depth));
    }
  }

  lemma {:induction false} CleanedFields(san: Cleaner, fields: seq<Field>, depth: nat)
    ensures CollectFields(CleanFields(san, fields, depth), depth) == Mapped(san, CollectFields(CleanFields(Same(), fields, depth), depth))
    decreases Levels(depth), 1, |fields|
  {
    if fields != [] {
      var front, last := fields[..|fields| - 1], fields[|fields| - 1];
      CleanedFields(san, front, depth);
      var a, b := CleanFields(san, front, depth), CleanFields(Same(), front, depth);
      if last.key == PROTO {
        assert CleanFields(san, fields, depth) == a && CleanFields(Same(), fields, depth) == b;
      } else {
        CleanedStrings(san, last.value, depth);
        var x, y := Field(last.key, Clean(san, last.value, depth)), Field(last.key, Strip(last.value, depth));
        assert (a + [x])[..|a + [x]| - 1] == a && (b + [y])[..|b + [y]| - 1] == b;
        MappedJoins(san, CollectFields(b, depth), CollectStrings(y.value, depth));
      }
    }
  }

  /** Nothing but visited string leaves changes: shape, keys and everything below depth 10 are those of the stripped tree. */
  lemma {:induction false} CleanedSkeleton(san: Cleaner, v: Json, depth: nat)
    ensures Skeleton(Clean(san, v, depth), depth) == Skeleton(Strip(v, depth), depth)
    decreases Levels(depth), 0
  {
    if depth <= MAX_DEPTH {
      match v
      case Str(s) =>
      case Arr(items) =>
        var a, b := CleanItems(san, items, depth + 1), CleanItems(Same(), items, depth + 1);
        forall i | 0 <= i < |items| ensures Skeleton(a[i], depth + 1) == Skeleton(b[i], depth + 1) {
          CleanedSkeleton(san, items[i], depth + 1);
        }
      case Obj(fields) =>
        SkeletonFields(san, fields, depth + 1);
      case Other(_) =>
    }
  }

  lemma {:induction false} SkeletonFields(san: Cleaner, fields: seq<Field>, depth: nat)
    ensures var a, b := CleanFields(san, fields, depth), CleanFields(Same(), fields, depth);
      |a| == |b| && forall i | 0 <= i < |a| :: a[i].key == b[i].key && Skeleton(a[i].value, depth) == Skeleton(b[i].value, depth)
    decreases Levels(depth), 1, |fields|
  {
    if fields != [] {
      SkeletonFields(san, fields[..|fields| - 1], depth);
      CleanedSkeleton(san, fields[|fields| - 1].value, depth);
    }
  }

  /** The visited keys depend on the skeleton only. */
  lemma {:induction false} KeysOfSkeleton(v: Json, depth: nat)
    ensures VisibleKeys(Skeleton(v, depth), depth) == VisibleKeys(v, depth)
    decreases Levels(depth)
  {
    if depth <= MAX_DEPTH {
      match v
      case Arr(items) =>
        forall i | 0 <= i < |items| { KeysOfSkeleton(items[i], depth + 1); }
        SameItemKeys(items, Skeleton(v, depth).items, depth + 1);
      case Obj(fields) =>
        forall i | 0 <= i < |fields| { KeysOfSkeleton(fields[i].value, depth + 1); }
        SameFieldKeys(fields, Skeleton(v, depth).fields, depth + 1);
      case _ =>
    }
  }

  lemma SameItemKeys(a: seq<Json>, b: seq<Json>, depth: nat)
    requires |a| == |b| && forall i | 0 <= i < |a| :: VisibleKeys(a[i], depth) == VisibleKeys(b[i], depth)
    ensures KeysOfItems(a, depth) == KeysOfItems(b, depth)
  {
  }

  lemma SameFieldKeys(a: seq<Field>, b: seq<Field>, depth: nat)
    requires |a| == |b|
    requires forall i | 0 <= i < |a| :: a[i].key == b[i].key && VisibleKeys(a[i].value, depth) == VisibleKeys(b[i].value, depth)
    ensures KeysOfFields(a, depth) == KeysOfFields(b, depth)
  {
    forall k ensures k in KeysOfFields(a, depth) <==> k in KeysOfFields(b, depth) {
      if f :| f in a && f.key == k {
        var i :| 0 <= i < |a| && a[i] == f;
        assert b[i] in b;
      }
      if f :| f in b && f.key == k {
        var i :| 0 <= i < |b| && b[i] == f;
        assert a[i] in a;
      }
    }
  }

  /** Stripping changes a tree exactly when some visited object has a `__proto__` property. */
  lemma {:induction false} StripIsIdentityIff(v: Json, depth: nat)
    ensures Strip(v, depth) == v <==> Plain(v, depth)
    decreases Levels(depth), 0
  {
    if depth <= MAX_DEPTH {
      match v
      case Str(s) =>
      case Arr(items) =>
        forall i | 0 <= i < |items| { StripIsIdentityIff(items[i], depth + 1); }
        ArrayIdentityIff(items, depth);
      case Obj(fields) =>
        StripFieldsIdentityIff(fields, depth + 1);
        ObjectIdentityIff(fields, depth);
      case Other(_) =>
    }
  }

  lemma ArrayIdentityIff(items: seq<Json>, depth: nat)
    requires depth <= MAX_DEPTH
    requires forall i | 0 <= i < |items| :: Strip(items[i], depth + 1) == items[i] <==> Plain(items[i], depth + 1)
    ensures Strip(Arr(items), depth) == Arr(items) <==> Plain(Arr(items), depth)
  {
    StripItemsIdentityIff(items, depth + 1);
    assert Strip(Arr(items), depth) == Arr(CleanItems(Same(), items, depth + 1));
    assert VisibleKeys(Arr(items), depth) == KeysOfItems(items, depth + 1);
  }

  lemma ObjectIdentityIff(fields: seq<Field>, depth: nat)
    requires depth <= MAX_DEPTH
    requires CleanFields(Same(), fields, depth + 1) == fields <==>
               forall i | 0 <= i < |fields| :: fields[i].key != PROTO && Plain(fields[i].value, depth + 1)
    ensures Strip(Obj(fields), depth) == Obj(fields) <==> Plain(Obj(fields), depth)
  {
    PlainFieldsIff(fields, depth + 1);
    assert Strip(Obj(fields), depth) == Obj(CleanFields(Same(), fields, depth + 1));
    assert VisibleKeys(Obj(fields), depth) == KeysOfFields(fields, depth + 1);
  }

  lemma StripItemsIdentityIff(items: seq<Json>, depth: nat)
    requires forall i | 0 <= i < |items| :: Strip(items[i], depth) == items[i] <==> Plain(items[i], depth)
    ensures CleanItems(Same(), items, depth) == items <==> PROTO !in KeysOfItems(items, depth)
  {
    var stripped := CleanItems(Same(), items, depth);
    if PROTO !in KeysOfItems(items, depth) {
      assert forall i | 0 <= i < |items| :: Plain(items[i], depth);
      assert stripped == items;
    } else {
      var i :| 0 <= i < |items| && PROTO in VisibleKeys(items[i], depth);
      assert stripped[i] != items[i];
    }
  }

  lemma PlainFieldsIff(fields: seq<Field>, depth: nat)
    ensures PROTO !in KeysOfFields(fields, depth) <==>
              forall i | 0 <= i < |fields| :: fields[i].key != PROTO && Plain(fields[i].value, depth)
  {
    forall i | 0 <= i < |fields| && !(fields[i].key != PROTO && Plain(fields[i].value, depth)) ensures PROTO in KeysOfFields(fields, depth) {
      assert fields[i] in fields;
    }
  }

  lemma {:induction false} StripFieldsIdentityIff(fields: seq<Field>, depth: nat)
    ensures |CleanFields(Same(), fields, depth)| <= |fields|
    ensures CleanFields(Same(), fields, depth) == fields <==>
              forall i | 0 <= i < |fields| :: fields[i].key != PROTO && Plain(fields[i].value, depth)
    decreases Levels(depth), 1, |fields|
  {
    if fields != [] {
      var n := |fields| - 1;
      var front, last := fields[..n], fields[n];
      StripFieldsIdentityIff(front, depth);
      StripIsIdentityIff(last.value, depth);
      assert fields == front + [last];
      var a := CleanFields(Same(), front, depth);
      var b := if last.key == PROTO then [] else [Field(last.key, Strip(last.value, depth))];
      assert CleanFields(Same(), fields, depth) == a + b;
      ShortPartsAgree(a, b, front, last);
      assert b == [last] <==> last.key != PROTO && Plain(last.value, depth);
      assert a == front <==> forall i | 0 <= i < n :: fields[i].key != PROTO && Plain(fields[i].value, depth) by {
        assert forall i | 0 <= i < n :: front[i] == fields[i];
      }
    }
  }

  lemma ShortPartsAgree(a: seq<Field>, b: seq<Field>, front: seq<Field>, last: Field)
    requires |a| <= |front| && |b| <= 1
    ensures a + b == front + [last] <==> a == front && b == [last]
  {
    if a + b == front + [last] {
      assert |a| == |front| && a == (a + b)[..|a|] == front;
      assert b == (a + b)[|a|..] == [last];
    }
  }

  /**
   * Sanitising is a structure-preserving map exactly on trees in which no visited object has a `__proto__`
   * property: the strings are the cleaned strings in order, and keys, shape, the operator-key test and
   * everything below depth 10 are unchanged. The keys are kept if and only if the tree is such a tree.
   */
  lemma SanitisingPreservesStructureIff(san: Cleaner, v: Json, depth: nat)
    ensures Plain(v, depth) <==> Skeleton(Clean(san, v, depth), depth) == Skeleton(v, depth)
    ensures Plain(v, depth) ==>
              && CollectStrings(Clean(san, v, depth), depth) == Mapped(san, CollectStrings(v, depth))
              && VisibleKeys(Clean(san, v, depth), depth) == VisibleKeys(v, depth)
              && (HasOperatorKey(Clean(san, v, depth), depth) <==> HasOperatorKey(v, depth))
  {
    CleanedStrings(san, v, depth);
    CleanedSkeleton(san, v, depth);
    StripIsIdentityIff(v, depth);
    KeysOfSkeleton(v, depth);
    KeysOfSkeleton(Clean(san, v, depth), depth);
    StrippedIsPlain(v, depth);
    KeysOfSkeleton(Strip(v, depth), depth);
  }

  lemma {:induction false} StrippedIsPlain(v: Json, depth: nat)
    ensures Plain(Strip(v, depth), depth)
    decreases Levels(depth), 0
  {
    if depth <= MAX_DEPTH {
      match v
      case Str(s) =>
      case Arr(items) =>
        var stripped := CleanItems(Same(), items, depth + 1);
        forall i | 0 <= i < |items| ensures Plain(stripped[i], depth + 1) {
          StrippedIsPlain(items[i], depth + 1);
        }
        assert VisibleKeys(Strip(v, depth), depth) == KeysOfItems(stripped, depth + 1);
      case Obj(fields) =>
        StrippedFieldsArePlain(fields, depth + 1);
      case Other(_) =>
    }
  }

  lemma {:induction false} StrippedFieldsArePlain(fields: seq<Field>, depth: nat)
    ensures forall f | f in CleanFields(Same(), fields, depth) :: f.key != PROTO && Plain(f.value, depth)
    decreases Levels(depth), 1, |fields|
  {
    if fields != [] {
      StrippedFieldsArePlain(fields[..|fields| - 1], depth);
      StrippedIsPlain(fields[|fields| - 1].value, depth);
    }
  }

  /** The result equals the input exactly when the tree is plain and no visited string changes. */
  lemma UnchangedIff(san: Cleaner, v: Json, depth: nat)
    ensures Clean(san, v, depth) == v <==> Plain(v, depth) && !Changes(san, v, depth)
    decreases Levels(depth), 0
  {
    SanitisingPreservesStructureIff(san, v, depth);
    var c := CollectStrings(v, depth);
    if Plain(v, depth) {
      if Clean(san, v, depth) == v {
        assert Mapped(san, c) == c;
        forall s | s in c ensures san(s) == s {
          var i :| 0 <= i < |c| && c[i] == s;
          assert Mapped(san, c)[i] == san(s);
        }
      }
      if !Changes(san, v, depth) {
        NothingToClean(san, v, depth);
        StripIsIdentityIff(v, depth);
      }
    }
  }

  lemma {:induction false} NothingToClean(san: Cleaner, v: Json, depth: nat)
    requires !Changes(san, v, depth)
    ensures Clean(san, v, depth) == Strip(v, depth)
    decreases Levels(depth), 0
  {
    if depth <= MAX_DEPTH {
      match v
      case Str(s) => assert s in CollectStrings(v, depth);
      case Arr(items) =>
        forall i | 0 <= i < |items| ensures Clean(san, items[i], depth + 1) == Strip(items[i], depth + 1) {
          ItemStrings(items, depth + 1, i);
          NothingToClean(san, items[i], depth + 1);
        }
        assert CleanItems(san, items, depth + 1) == CleanItems(Same(), items, depth + 1);
      case Obj(fields) =>
        NothingToCleanFields(san, fields, depth + 1);
      case Other(_) =>
    }
  }

  lemma {:induction false} ItemStrings(items: seq<Json>, depth: nat, i: nat)
    requires i < |items|
    ensures forall s | s in CollectStrings(items[i], depth) :: s in CollectItems(items, depth)
    decreases |items|
  {
    if i < |items| - 1 {
      ItemStrings(items[..|items| - 1], depth, i);
    }
  }

  lemma {:induction false} NothingToCleanFields(san: Cleaner, fields: seq<Field>, depth: nat)
    requires forall s | s in CollectFields(fields, depth) :: san(s) == s
    ensures CleanFields(san, fields, depth) == CleanFields(Same(), fields, depth)
    decreases Levels(depth), 1, |fields|
  {
    if fields != [] {
      NothingToCleanFields(san, fields[..|fields| - 1], depth);
      NothingToClean(san, fields[|fields| - 1].value, depth);
    }
  }

  lemma OperatorsInItems(items: seq<Json>, depth: nat)
    ensures (exists k | k in KeysOfItems(items, depth) :: IsOperator(k)) <==> exists i | 0 <= i < |items| :: HasOperatorKey(items[i], depth)
  {
    if i :| 0 <= i < |items| && HasOperatorKey(items[i], depth) {
      var k :| k in VisibleKeys(items[i], depth) && IsOperator(k);
      assert k in KeysOfItems(items, depth);
    }
  }

  lemma OperatorsInFields(fields: seq<Field>, depth: nat)
    ensures (exists k | k in KeysOfFields(fields, depth) :: IsOperator(k)) <==>
              exists i | 0 <= i < |fields| :: IsOperator(fields[i].key) || HasOperatorKey(fields[i].value, depth)
  {
    if i :| 0 <= i < |fields| && (IsOperator(fields[i].key) || HasOperatorKey(fields[i].value, depth)) {
      if IsOperator(fields[i].key) {
        assert fields[i] in fields;
        assert fields[i].key in KeysOfFields(fields, depth);
      } else {
        var k :| k in VisibleKeys(fields[i].value, depth) && IsOperator(k);
        assert k in KeysOfFields(fields, depth);
      }
    }
  }

  // ---- How deep the traversals look ----

  /** `n` arrays around `v`. */
  function Nested(v: Json, n: nat): Json { if n == 0 then v else Arr([Nested(v, n - 1)]) }

  /** A string is collected and cleaned exactly down to the tenth level; below that it stays as it is. */
  lemma {:induction false} StringsSeenIff(san: Cleaner, s: string, n: nat, depth: nat)
    ensures CollectStrings(Nested(Str(s), n), depth) == if n + depth <= 10 then [s] else []
    ensures Clean(san, Nested(Str(s), n), depth) == Nested(Str(if n + depth <= 10 then san(s) else s), n)
    decreases n
  {
    if n > 0 && depth <= 10 {
      StringsSeenIff(san, s, n - 1, depth + 1);
      var inner := [Nested(Str(s), n - 1)];
      assert inner[..0] == [];
      assert CollectItems(inner, depth + 1) == CollectStrings(inner[0], depth + 1);
      assert CleanItems(san, inner, depth + 1) == [Clean(san, inner[0], depth + 1)];
    }
  }

  lemma OneKey(san: Cleaner, key: string, depth: nat)
    requires depth <= 10
    ensures var v := Obj([Field(key, Other(0))]);
      && (HasOperatorKey(v, depth) <==> key != "" && key[0] == '$')
      && Clean(san, v, depth) == if key == "__proto__" then Obj([]) else v
  {
    var fields := [Field(key, Other(0))];
    assert fields[..0] == [];
    assert fields[0] in fields && VisibleKeys(Obj(fields), depth) == KeysOfFields(fields, depth + 1) == {key};
    assert IsOperator(key) <==> key != "" && key[0] == '$';
    assert Clean(san, Obj(fields), depth) == Obj(CleanFields(san, fields, depth + 1));
    assert Clean(san, Other(0), depth + 1) == Other(0);
    assert CleanFields(san, fields, depth + 1) ==
             CleanFields(san, fields[..0], depth + 1) + if key == "__proto__" then [] else [Field(key, Other(0))];
  }

  /** A key is seen exactly down to the tenth level: there it is refused if it starts with a dollar sign, and dropped if it is `__proto__`. */
  lemma {:induction false} KeysSeenIff(san: Cleaner, key: string, n: nat, depth: nat)
    ensures HasOperatorKey(Nested(Obj([Field(key, Other(0))]), n), depth) <==> n + depth <= 10 && key != "" && key[0] == '$'
    ensures Clean(san, Nested(Obj([Field(key, Other(0))]), n), depth) ==
              Nested(Obj(if n + depth <= 10 && key == "__proto__" then [] else [Field(key, Other(0))]), n)
    decreases n
  {
    if depth <= 10 {
      if n == 0 {
        OneKey(san, key, depth);
      } else {
        KeysSeenIff(san, key, n - 1, depth + 1);
        var inner := [Nested(Obj([Field(key, Other(0))]), n - 1)];
        assert KeysOfItems(inner, depth + 1) == VisibleKeys(inner[0], depth + 1);
        assert CleanItems(san, inner, depth + 1) == [Clean(san, inner[0], depth + 1)];
      }
    }
  }

  // ---- The middleware ----

  datatype Verdict = Rejected | Passed(body: Option<Json>)

  class PayloadSanitizationMiddleware {
    const san: Cleaner
    const isSql: string -> bool
    const enabled: bool

    constructor (san: Cleaner, isSql: string -> bool, enabled: bool)
      ensures this.san == san && this.isSql == isSql && this.enabled == enabled
    {
      this.san := san;
      this.isSql := isSql;
      this.enabled := enabled;
    }

    method HasNoSqlOperatorKey(v: Json, depth: nat) returns (found: bool)
      ensures found <==> HasOperatorKey(v, depth)
      decreases Levels(depth)
    {
      if depth > MAX_DEPTH {
        return false;
      }
      match v
      case Arr(items) =>
        OperatorsInItems(items, depth + 1);
        var i := 0;
        while i < |items|
          invariant i <= |items|
          invariant forall j | 0 <= j < i :: !HasOperatorKey(items[j], depth + 1)
        {
          var inside := HasNoSqlOperatorKey(items[i], depth + 1);
          if inside {
            return true;
          }
          i := i + 1;
        }
        found := false;
      case Obj(fields) =>
        OperatorsInFields(fields, depth + 1);
        var i := 0;
        while i < |fields|
          invariant i <= |fields|
          invariant forall j | 0 <= j < i :: !IsOperator(fields[j].key) && !HasOperatorKey(fields[j].value, depth + 1)
        {
          if IsOperator(fields[i].key) {
            return true;
          }
          var inside := HasNoSqlOperatorKey(fields[i].value, depth + 1);
          if inside {
            return true;
          }
          i := i + 1;
        }
        found := false;
      case _ =>
        found := false;
    }

    /** Builds the result field by field; `changed` also counts strings under a dropped `__proto__`. */
    method SanitizeDeep(v: Json, depth: nat) returns (result: Json, changed: bool)
      ensures result == Clean(san, v, depth)
      ensures changed <==> Changes(san, v, depth)
      decreases Levels(depth)
    {
      if depth > MAX_DEPTH {
        return v, false;
      }
      match v
      case Str(s) =>
        result, changed := Str(san(s)), san(s) != s;
        assert CollectStrings(v, depth) == [s];
      case Arr(items) =>
        changed := false;
        var built := [];
        var i := 0;
        while i < |items|
          invariant i <= |items| && built == CleanItems(san, items[..i], depth + 1)
          invariant changed <==> exists s | s in CollectItems(items[..i], depth + 1) :: san(s) != s
        {
          var r, c := SanitizeDeep(items[i], depth + 1);
          assert items[..i + 1][..i] == items[..i];
          assert CollectItems(items[..i + 1], depth + 1) == CollectItems(items[..i], depth + 1) + CollectStrings(items[i], depth + 1);
          if c {
            changed := true;
          }
          built := built + [r];
          i := i + 1;
        }
        assert items[..i] == items;
        result := Arr(built);
      case Obj(fields) =>
        changed := false;
        var built := [];
        var i := 0;
        while i < |fields|
          invariant i <= |fields| && built == CleanFields(san, fields[..i], depth + 1)
          invariant changed <==> exists s | s in CollectFields(fields[..i], depth + 1) :: san(s) != s
        {
          var r, c := SanitizeDeep(fields[i].value, depth + 1);
          assert fields[..i + 1][..i] == fields[..i];
          assert CollectFields(fields[..i + 1], depth + 1) == CollectFields(fields[..i], depth + 1) + CollectStrings(fields[i].value, depth + 1);
          if c {
            changed := true;
          }
          if fields[i].key != PROTO {
            built := built + [Field(fields[i].key, r)];
          }
          i := i + 1;
        }
        assert fields[..i] == fields;
        result := Obj(built);
      case Other(_) =>
        result, changed := v, false;
    }

    /** A request passes with its body unless it carries an operator key or SQL; the body is replaced only when a string changed. */
    method Use(body: Option<Json>, query: Json, params: Json) returns (verdict: Verdict)
      ensures
        var strings := (if body.Some? then CollectStrings(body.value, 0) else []) + CollectStrings(query, 0) + CollectStrings(params, 0);
        verdict ==
          if !enabled then Passed(body)
          else if body.Some? && HasOperatorKey(body.value, 0) then Rejected
          else if exists s | s in strings :: isSql(s) then Rejected
          else if body.Some? && Changes(san, body.value, 0) then Passed(Some(Clean(san, body.value, 0)))
          else Passed(body)
    {
      if !enabled {
        return Passed(body);
      }
      if body.Some? {
        var operators := HasNoSqlOperatorKey(body.value, 0);
        if operators {
          return Rejected;
        }
      }
      var strings := (if body.Some? then CollectStrings(body.value, 0) else []) + CollectStrings(query, 0) + CollectStrings(params, 0);
      if exists s :: s in strings && isSql(s) {
        return Rejected;
      }
      if body.Some? {
        var result, changed := SanitizeDeep(body.value, 0);
        if changed {
          return Passed(Some(result));
        }
      }
      verdict := Passed(body);
    }
  }
}
