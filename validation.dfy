/** The order schema, the error map built from its failures, and the lighter
    eligibility gate that enables the submit button. */
module Validation {
  import opened Draft

  const FullNameTooShort := "full name must be at least 3 characters"
  const FullNameTooLong := "full name must be at most 20 characters"
  const FullNameRequired := "Full name is required"
  const SizeIncorrect := "size must be S or M or L"
  const SizeRequired := "Size is required"
  const ToppingsTooFew := "At least one topping must be selected"

  const MinNameLength := 3
  const MaxNameLength := 20
  const MinToppings := 1

  /** The sizes the schema and the gate accept. */
  const SizeOptions: seq<string> := ["S", "M", "L"]

  /** One failed rule: the path it is reported under and its fixed message. */
  datatype Failure = Failure(path: Field, message: string)

  /** The name rules: at least 3 characters, at most 20, and required. */
  function FullNameFailures(name: string): (r: seq<Failure>)
    ensures forall i :: 0 <= i < |r| ==> r[i].path == FullName
    ensures forall i :: 0 <= i < |r| ==> r[i].message in {FullNameTooShort, FullNameTooLong, FullNameRequired}
    ensures r == [] <==> 3 <= |name| <= 20
  {
    (if |name| < MinNameLength then [Failure(FullName, FullNameTooShort)] else [])
    + (if |name| > MaxNameLength then [Failure(FullName, FullNameTooLong)] else [])
    + (if name == "" then [Failure(FullName, FullNameRequired)] else [])
  }

  /** The size rules: one of the three options, and required. */
  function SizeFailures(size: string): (r: seq<Failure>)
    ensures forall i :: 0 <= i < |r| ==> r[i].path == Size
    ensures forall i :: 0 <= i < |r| ==> r[i].message in {SizeIncorrect, SizeRequired}
    ensures r == [] <==> size == "S" || size == "M" || size == "L"
  {
    (if size !in SizeOptions then [Failure(Size, SizeIncorrect)] else [])
    + (if size == "" then [Failure(Size, SizeRequired)] else [])
  }

  /** The topping rule: at least one selected. */
  function ToppingsFailures(toppings: seq<string>): (r: seq<Failure>)
    ensures forall i :: 0 <= i < |r| ==> r[i] == Failure(Toppings, ToppingsTooFew)
    ensures r == [] <==> |toppings| >= 1
  {
    if |toppings| < MinToppings then [Failure(Toppings, ToppingsTooFew)] else []
  }

  /** Every rule the draft breaks, all of them (validation does not stop at the
      first failure), fields in schema order. */
  function Failures(d: Draft): (r: seq<Failure>)
    ensures r == [] <==> SchemaValid(d)
  {
    FullNameFailures(d.fullName) + SizeFailures(d.size) + ToppingsFailures(d.toppings)
  }

  /** The schema's rules stated directly on the draft. */
  predicate SchemaValid(d: Draft)
  {
    && MinNameLength <= |d.fullName| <= MaxNameLength
    && d.size in SizeOptions
    && |d.toppings| >= MinToppings
  }

  /** The error map the failures produce when written one after another into an
      initially empty map: a later message for a path overwrites an earlier one. */
  function ErrorMapOf(fs: seq<Failure>): (m: map<Field, string>)
    ensures m.Keys == set i | 0 <= i < |fs| :: fs[i].path
  {
    if fs == [] then map[]
    else
      var init := fs[..|fs| - 1];
      assert forall i :: 0 <= i < |init| ==> init[i] == fs[i];
      assert (set i | 0 <= i < |fs| :: fs[i].path)
          == (set i | 0 <= i < |init| :: init[i].path) + {fs[|fs| - 1].path};
      ErrorMapOf(init)[fs[|fs| - 1].path := fs[|fs| - 1].message]
  }

  /** The per-field error map of a full validation pass. */
  function Validate(d: Draft): (m: map<Field, string>)
    ensures m == map[] <==> SchemaValid(d)
  {
    var fs := Failures(d);
    assert fs != [] ==> fs[0].path in ErrorMapOf(fs);
    ErrorMapOf(fs)
  }

  /** The submit button's gate: the untrimmed name has at least 3 characters
      and the size is one of the three options. */
  predicate Eligible(d: Draft): (r: bool)
    ensures r <==> |d.fullName| >= MinNameLength && SizeFailures(d.size) == []
  {
    |d.fullName| >= MinNameLength && d.size in SizeOptions
  }

  // ----- the error map ---------------------------------------------------

  /** The message the error map keeps for a path is that of the last failure
      reported under it. */
  lemma {:induction false} ErrorMapLastWins(fs: seq<Failure>, p: Field)
    requires p in ErrorMapOf(fs)
    ensures exists i :: 0 <= i < |fs| && fs[i].path == p && ErrorMapOf(fs)[p] == fs[i].message
                        && forall j :: i < j < |fs| ==> fs[j].path != p
  {
    var last := |fs| - 1;
    if fs[last].path != p {
      var init := fs[..last];
      ErrorMapLastWins(init, p);
      var i :| 0 <= i < |init| && init[i].path == p && ErrorMapOf(init)[p] == init[i].message
               && forall j :: i < j < |init| ==> init[j].path != p;
      assert fs[i] == init[i];
      assert forall j :: i < j < |fs| ==> fs[j].path != p by {
        forall j | i < j < |fs| ensures fs[j].path != p {
          if j < last { assert fs[j] == init[j]; }
        }
      }
    }
  }

  /** Writing two lists of failures in turn: the later list wins on shared paths. */
  lemma {:induction false} ErrorMapAppend(a: seq<Failure>, b: seq<Failure>)
    ensures ErrorMapOf(a + b) == ErrorMapOf(a) + ErrorMapOf(b)
  {
    if b == [] {
      assert a + b == a;
    } else {
      var b' := b[..|b| - 1];
      assert (a + b)[..|a + b| - 1] == a + b';
      ErrorMapAppend(a, b');
    }
  }

  /** The error map of a field's own failure list: empty, or that field alone
      with the last message. */
  lemma {:induction false} FieldErrorMap(fs: seq<Failure>, p: Field)
    requires forall i :: 0 <= i < |fs| ==> fs[i].path == p
    ensures fs == [] ==> ErrorMapOf(fs) == map[]
    ensures fs != [] ==> ErrorMapOf(fs) == map[p := fs[|fs| - 1].message]
  {
    if fs != [] {
      var init := fs[..|fs| - 1];
      FieldErrorMap(init, p);
    }
  }

  /** Looking a field up in a union of three maps that each hold at most their own field. */
  lemma UnionOfFieldMaps(mn: map<Field, string>, ms: map<Field, string>, mt: map<Field, string>)
    requires mn.Keys <= {FullName} && ms.Keys <= {Size} && mt.Keys <= {Toppings}
    ensures var m := mn + ms + mt;
            && (FullName in m <==> FullName in mn) && (FullName in mn ==> m[FullName] == mn[FullName])
            && (Size in m <==> Size in ms) && (Size in ms ==> m[Size] == ms[Size])
            && (Toppings in m <==> Toppings in mt) && (Toppings in mt ==> m[Toppings] == mt[Toppings])
  {
  }

  /** The validation map is the union of the three fields' own maps. */
  lemma ValidateSplits(d: Draft)
    ensures Validate(d) == ErrorMapOf(FullNameFailures(d.fullName))
                           + ErrorMapOf(SizeFailures(d.size))
                           + ErrorMapOf(ToppingsFailures(d.toppings))
  {
    var n, s, t := FullNameFailures(d.fullName), SizeFailures(d.size), ToppingsFailures(d.toppings);
    ErrorMapAppend(n + s, t);
    ErrorMapAppend(n, s);
  }

  // ----- what each field's rules promise ---------------------------------

  /** Each field's entry in the validation map comes from that field's own
      failures alone: present when it has one, holding the last one's message. */
  lemma FieldEntries(d: Draft)
    ensures var n := FullNameFailures(d.fullName);
            (FullName in Validate(d) <==> n != []) && (n != [] ==> Validate(d)[FullName] == n[|n| - 1].message)
    ensures var s := SizeFailures(d.size);
            (Size in Validate(d) <==> s != []) && (s != [] ==> Validate(d)[Size] == s[|s| - 1].message)
    ensures var t := ToppingsFailures(d.toppings);
            (Toppings in Validate(d) <==> t != []) && (t != [] ==> Validate(d)[Toppings] == t[|t| - 1].message)
  {
    var n, s, t := FullNameFailures(d.fullName), SizeFailures(d.size), ToppingsFailures(d.toppings);
    ValidateSplits(d);
    FieldErrorMap(n, FullName);
    FieldErrorMap(s, Size);
    FieldErrorMap(t, Toppings);
    UnionOfFieldMaps(ErrorMapOf(n), ErrorMapOf(s), ErrorMapOf(t));
  }

  /** The name gets no error exactly when its raw length is within [3, 20];
      a name of 1 or 2 characters is too short, one over 20 too long, and the
      empty name gets one of its own rules' messages. */
  lemma FullNameRule(d: Draft)
    ensures FullName !in Validate(d) <==> 3 <= |d.fullName| <= 20
    ensures 0 < |d.fullName| < 3 ==> Validate(d)[FullName] == FullNameTooShort
    ensures |d.fullName| > 20 ==> Validate(d)[FullName] == FullNameTooLong
    ensures d.fullName == "" ==> Validate(d)[FullName] in {FullNameTooShort, FullNameRequired}
  {
    FieldEntries(d);
  }

  /** The size gets no error exactly when it is "S", "M" or "L"; any other
      non-empty value is reported as incorrect, and the empty value gets one of
      its own rules' messages. */
  lemma SizeRule(d: Draft)
    ensures Size !in Validate(d) <==> d.size == "S" || d.size == "M" || d.size == "L"
    ensures d.size !in SizeOptions && d.size != "" ==> Validate(d)[Size] == SizeIncorrect
    ensures d.size == "" ==> Validate(d)[Size] in {SizeIncorrect, SizeRequired}
  {
    FieldEntries(d);
  }

  /** An empty topping list, and only that, is reported, with the one topping message. */
  lemma ToppingsRule(d: Draft)
    ensures Toppings !in Validate(d) <==> |d.toppings| >= 1
    ensures |d.toppings| == 0 ==> Validate(d)[Toppings] == ToppingsTooFew
  {
    FieldEntries(d);
  }

  // ----- the eligibility gate ----------------------------------------------

  /** The gate is the name's lower bound together with the size rule. */
  lemma EligibleIff(d: Draft)
    ensures Eligible(d) <==> |d.fullName| >= 3 && Size !in Validate(d)
  {
    SizeRule(d);
  }

  /** Every draft the schema accepts is eligible for submission. */
  lemma ValidIsEligible(d: Draft)
    requires Validate(d) == map[]
    ensures Eligible(d)
  {
  }

  /** The gate lets through exactly the eligible drafts whose name is longer
      than 20 characters or whose topping list is empty without their passing
      the schema. */
  lemma EligibleButRejected(d: Draft)
    requires Eligible(d)
    ensures Validate(d) != map[] <==> |d.fullName| > 20 || |d.toppings| == 0
  {
  }

  /** For a draft the submit gate lets through, no field breaks two rules, so
      the error map does not depend on the order of failures within a field:
      at most a too-long name and missing toppings are reported. */
  lemma EligibleErrors(d: Draft)
    requires Eligible(d)
    ensures |FullNameFailures(d.fullName)| <= 1 && SizeFailures(d.size) == []
    ensures Validate(d) == (if |d.fullName| > 20 then map[FullName := FullNameTooLong] else map[])
                           + (if d.toppings == [] then map[Toppings := ToppingsTooFew] else map[])
  {
    ValidateSplits(d);
  }

  // ----- worked drafts -----------------------------------------------------

  /** "Al" with size M and no toppings: the name is too short and the toppings
      are missing, and the size passes. */
  lemma ShortNameNoToppings()
    ensures Validate(Draft("Al", "M", [])) == map[FullName := FullNameTooShort, Toppings := ToppingsTooFew]
  {
    var d := Draft("Al", "M", []);
    FieldEntries(d);
    assert Failures(d) == [Failure(FullName, FullNameTooShort), Failure(Toppings, ToppingsTooFew)];
  }

  /** "Bob" with no size passes the name check but not the gate. */
  lemma NoSizeNotEligible()
    ensures !Eligible(Draft("Bob", "", []))
    ensures FullName !in Validate(Draft("Bob", "", []))
  {
    FullNameRule(Draft("Bob", "", []));
  }
}
