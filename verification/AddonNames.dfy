/** Tool names for imported operations: `pickEndpointName` and the name set of
    `collectEndpoints` in `internal/addon/openapi_endpoints.go`. */
module AddonNames {
  import opened Text
  import opened AddonSlug

  datatype Operation = Operation(method_: string, path: string, id: string)

  function LowerAll(s: string): string {
    if s == "" then "" else [Lower(s[0])] + LowerAll(s[1..])
  }

  /** The name before any suffix. */
  function Base(op: Operation): string {
    if Slug(op.id) != "" then Slug(op.id)
    else
      var fallback := Slug(LowerAll(op.method_) + "_" + op.path);
      if fallback != "" then fallback else LowerAll(op.method_)
  }

  /** The names tried, in order: the base, then the base with `_2`, `_3`, ... */
  function Candidate(base: string, k: nat): string {
    if k == 0 then base else base + "_" + Decimal(k + 1)
  }

  lemma CandidatesDiffer(base: string, j: nat, k: nat)
    requires j != k
    ensures Candidate(base, j) != Candidate(base, k)
  {
    if j > 0 && k > 0 && Candidate(base, j) == Candidate(base, k) {
      assert Candidate(base, j)[|base| + 1..] == Decimal(j + 1);
      assert Candidate(base, k)[|base| + 1..] == Decimal(k + 1);
      DecimalIntInjective(j + 1, k + 1);
    } else if j == 0 {
      assert |Candidate(base, k)| > |base|;
    } else if k == 0 {
      assert |Candidate(base, j)| > |base|;
    }
  }

  /** The first candidates, as a set: none repeats. */
  ghost function Tried(base: string, n: nat): (s: set<string>)
    ensures forall x :: x in s <==> exists k :: 0 <= k < n && x == Candidate(base, k)
    ensures |s| == n
  {
    if n == 0 then {}
    else
      assert Candidate(base, n - 1) !in Tried(base, n - 1) by {
        forall k | 0 <= k < n - 1 ensures Candidate(base, k) != Candidate(base, n - 1) {
          CandidatesDiffer(base, k, n - 1);
        }
      }
      Tried(base, n - 1) + {Candidate(base, n - 1)}
  }

  lemma {:induction false} SubsetSize(a: set<string>, b: set<string>)
    requires a <= b
    ensures |a| <= |b|
  {
    if a != {} {
      var x :| x in a;
      SubsetSize(a - {x}, b - {x});
    }
  }

  /** The first candidate that is free. */
  predicate Picked(used: set<string>, base: string, k: nat, name: string) {
    name == Candidate(base, k) && name !in used && forall j :: 0 <= j < k ==> Candidate(base, j) in used
  }

  /** The suffix loop always ends, within one try more than there are names in
      use, and gives the first candidate that is free. */
  method PickName(base: string, used: set<string>) returns (name: string, tries: nat)
    ensures Picked(used, base, tries, name)
    ensures tries <= |used|
  {
    name := base;
    tries := 0;
    while name in used
      invariant name == Candidate(base, tries)
      invariant forall j :: 0 <= j < tries ==> Candidate(base, j) in used
      invariant tries <= |used|
      decreases |used| - tries
    {
      assert Tried(base, tries + 1) <= used;
      SubsetSize(Tried(base, tries + 1), used);
      tries := tries + 1;
      name := base + "_" + Decimal(tries + 1);
    }
  }

  function Bases(ops: seq<Operation>): (bs: seq<string>)
    ensures |bs| == |ops|
  {
    if ops == [] then [] else Bases(ops[..|ops| - 1]) + [Base(ops[|ops| - 1])]
  }

  function NameSet(names: seq<string>): set<string> { set x | x in names }

  /** Each base has the first of its candidates that no earlier one took. */
  ghost predicate AllPicked(bases: seq<string>, names: seq<string>) {
    && |bases| == |names|
    && (bases != [] ==>
          var n := |bases| - 1;
          AllPicked(bases[..n], names[..n]) && exists k: nat :: Picked(NameSet(names[..n]), bases[n], k, names[n]))
  }

  lemma {:induction false} PickedDistinct(bases: seq<string>, names: seq<string>)
    requires AllPicked(bases, names)
    ensures forall i, j :: 0 <= i < j < |names| ==> names[i] != names[j]
  {
    if bases != [] {
      var n := |bases| - 1;
      PickedDistinct(bases[..n], names[..n]);
      assert names[n] !in NameSet(names[..n]);
      forall i, j | 0 <= i < j < |names| ensures names[i] != names[j] {
        assert names[i] == names[..n][i];
        if j < n { assert names[j] == names[..n][j]; }
      }
    }
  }

  lemma PickNext(bases: seq<string>, names: seq<string>, base: string, k: nat, name: string)
    requires AllPicked(bases, names) && Picked(NameSet(names), base, k, name)
    ensures AllPicked(bases + [base], names + [name])
    ensures NameSet(names + [name]) == NameSet(names) + {name}
  {
    var n := |bases|;
    assert (bases + [base])[..n] == bases && (names + [name])[..n] == names;
    assert Picked(NameSet((names + [name])[..n]), (bases + [base])[n], k, (names + [name])[n]);
  }

  /** Every operation gets a name of its own, and it is its base name unless an
      earlier operation has that one. */
  method CollectNames(ops: seq<Operation>) returns (names: seq<string>)
    ensures AllPicked(Bases(ops), names)
    ensures forall i, j :: 0 <= i < j < |names| ==> names[i] != names[j]
  {
    names := [];
    var used: set<string> := {};
    for i := 0 to |ops|
      invariant used == NameSet(names) && AllPicked(Bases(ops[..i]), names)
    {
      var base := Base(ops[i]);
      var name, tries := PickName(base, used);
      PickNext(Bases(ops[..i]), names, base, tries, name);
      assert ops[..i + 1][..i] == ops[..i];
      names := names + [name];
      used := used + {name};
    }
    assert ops[..|ops|] == ops;
    PickedDistinct(Bases(ops), names);
  }

  /* ---- What the validator says ---- */

  /** `^[a-z][a-z0-9_]{1,62}$` */
  predicate ValidName(s: string) {
    2 <= |s| <= 63 && IsLetter(s[0]) && forall i :: 0 < i < |s| ==> Alnum(s[i]) || s[i] == '_'
  }

  /** The verbs the importer knows. */
  predicate KnownMethod(m: string) { m == "GET" || m == "POST" || m == "PUT" || m == "PATCH" || m == "DELETE" }

  lemma BaseShape(op: Operation)
    requires KnownMethod(op.method_)
    ensures SlugShape(Base(op))
  {
    SlugSpec(op.id);
    var text := LowerAll(op.method_) + "_" + op.path;
    SlugSpec(text);
    var m := op.method_;
    assert m != "" && LowerAll(m)[0] == Lower(m[0]);
    assert text[0] == Lower(m[0]);
    assert Alnum(Lower(text[0]));
    assert Usable(text);
  }

  lemma CandidateShape(op: Operation, k: nat)
    requires KnownMethod(op.method_)
    ensures ValidName(Candidate(Base(op), k)) <==> 2 <= |Candidate(Base(op), k)| <= 63
  {
    BaseShape(op);
    var base, name := Base(op), Candidate(Base(op), k);
    assert name[0] == base[0];
    forall i | 0 < i < |name| ensures Alnum(name[i]) || name[i] == '_' {
      if i > |base| { assert name[i] == Decimal(k + 1)[i - |base| - 1]; }
    }
  }

  /** What a caller can see beforehand: the base name and how many of its candidates
      are taken. A first name needs two characters; one with a suffix must leave room
      for it within 63. */
  predicate Fits(base: string, taken: nat) {
    if taken == 0 then |base| >= 2 else |base| + 1 + |Decimal(taken + 1)| <= 63
  }

  lemma CandidateValidIff(op: Operation, taken: nat)
    requires KnownMethod(op.method_)
    ensures ValidName(Candidate(Base(op), taken)) <==> Fits(Base(op), taken)
  {
    CandidateShape(op, taken);
    BaseShape(op);
  }

  /** How many candidates of a base are taken, counted from the first. */
  ghost predicate TakenBefore(names: seq<string>, base: string, taken: nat) {
    Candidate(base, taken) !in names && forall j :: 0 <= j < taken ==> Candidate(base, j) in names
  }

  lemma {:induction false} PickedAt(bases: seq<string>, names: seq<string>, i: nat) returns (k: nat)
    requires AllPicked(bases, names) && i < |bases|
    ensures TakenBefore(names[..i], bases[i], k) && names[i] == Candidate(bases[i], k)
  {
    var n := |bases| - 1;
    if i == n {
      k :| Picked(NameSet(names[..n]), bases[n], k, names[n]);
    } else {
      k := PickedAt(bases[..n], names[..n], i);
      assert names[..n][..i] == names[..i];
    }
  }

  lemma {:induction false} BasesAt(ops: seq<Operation>, i: nat)
    requires i < |ops|
    ensures Bases(ops)[i] == Base(ops[i])
  {
    if i < |ops| - 1 {
      BasesAt(ops[..|ops| - 1], i);
    }
  }

  lemma TakenOnce(names: seq<string>, base: string, j: nat, k: nat)
    requires TakenBefore(names, base, j) && TakenBefore(names, base, k)
    ensures j == k
  {
  }

  /** Every name a document gets passes the validator exactly when its base fits the
      number of its candidates that earlier operations took. */
  lemma CollectedValidIff(ops: seq<Operation>, names: seq<string>, i: nat, taken: nat)
    requires AllPicked(Bases(ops), names) && i < |ops| && KnownMethod(ops[i].method_)
    requires TakenBefore(names[..i], Base(ops[i]), taken)
    ensures names[i] == Candidate(Base(ops[i]), taken)
    ensures ValidName(names[i]) <==> Fits(Base(ops[i]), taken)
  {
    BasesAt(ops, i);
    var k := PickedAt(Bases(ops), names, i);
    TakenOnce(names[..i], Base(ops[i]), k, taken);
    CandidateValidIff(ops[i], taken);
  }

  /** Two operations with one 62-character base: the second gets a 64-character name,
      which the importer's own validator refuses. */
  lemma LongNamesCollide(a: Operation, b: Operation, names: seq<string>)
    requires KnownMethod(a.method_) && KnownMethod(b.method_)
    requires Base(a) == Base(b) && |Base(a)| == MAX_SLUG && AllPicked(Bases([a, b]), names)
    ensures names[0] == Base(a) && ValidName(names[0])
    ensures names[1] == Base(a) + "_2" && !ValidName(names[1])
  {
    var base, ops := Base(a), [a, b];
    assert names[..0] == [];
    assert TakenBefore(names[..0], base, 0);
    CollectedValidIff(ops, names, 0, 0);
    assert names[..1] == [base];
    assert |Candidate(base, 1)| > |base|;
    assert TakenBefore(names[..1], base, 1);
    CollectedValidIff(ops, names, 1, 1);
    assert Decimal(2) == "2";
    assert base + "_" + "2" == base + "_2";
  }

  /** An operation id that slugs to one letter is refused even without a collision. */
  lemma OneLetterName(op: Operation, names: seq<string>)
    requires KnownMethod(op.method_) && |Slug(op.id)| == 1 && AllPicked(Bases([op]), names)
    ensures names == [Slug(op.id)] && !ValidName(names[0])
  {
    assert names[..0] == [];
    assert TakenBefore(names[..0], Base(op), 0);
    CollectedValidIff([op], names, 0, 0);
  }

  lemma OneLetterExists()
    ensures Slug("a") == "a"
  {
    var a := "a";
    assert SlugShape(a);
    SlugTwice(a);
  }
}
