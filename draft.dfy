/** The order draft held by the form: the three fields, the topping catalog
    the checkboxes are drawn from, and the list operations the checkbox
    handler applies to the selected toppings. */
module Draft {

  /** The error paths the schema reports (the keys of the form's error map). */
  datatype Field = FullName | Size | Toppings

  /** The fields the generic change handler is wired to (the text input and the select). */
  datatype TextField = NameInput | SizeSelect

  /** The form's `formData` record. Sizes and names are the raw strings the
      inputs deliver; nothing is trimmed. */
  datatype Draft = Draft(fullName: string, size: string, toppings: seq<string>)

  /** The record the form starts with and is reset to after a successful order. */
  const EmptyDraft: Draft := Draft("", "", [])

  /** One entry of the topping catalog the checkboxes are rendered from. */
  datatype Topping = Topping(id: string, text: string)

  const Catalog: seq<Topping> := [
    Topping("1", "Pepperoni"),
    Topping("2", "Green Peppers"),
    Topping("3", "Pineapple"),
    Topping("4", "Mushrooms"),
    Topping("5", "Ham")
  ]

  /** The checkbox names: each checkbox is named by its topping's text. */
  function CatalogTexts(): (texts: seq<string>)
    ensures |texts| == |Catalog|
    ensures forall i :: 0 <= i < |Catalog| ==> texts[i] == Catalog[i].text
    ensures NoDuplicates(texts)
  {
    seq(|Catalog|, i requires 0 <= i < |Catalog| => Catalog[i].text)
  }

  /** The list with every occurrence of `t` filtered out, the others kept in order. */
  function Without(s: seq<string>, t: string): (r: seq<string>)
    ensures t !in r
    ensures |r| <= |s|
    ensures forall x :: x in r ==> x in s
  {
    if s == [] then []
    else (if s[0] == t then [] else [s[0]]) + Without(s[1..], t)
  }

  /** What the checkbox handler does to the topping list: a check appends the
      name at the end, an uncheck removes every occurrence of it. */
  function Toggled(s: seq<string>, name: string, checked: bool): (r: seq<string>)
    ensures checked ==> |r| == |s| + 1 && r[..|s|] == s && r[|s|] == name
    ensures !checked ==> name !in r && forall x :: x in s && x != name ==> x in r
  {
    if checked then s + [name]
    else WithoutKeepsOthers(s, name); Without(s, name)
  }

  predicate NoDuplicates(s: seq<string>)
  {
    forall i, j :: 0 <= i < j < |s| ==> s[i] != s[j]
  }

  /** The shape the topping list keeps while the checkboxes drive it: only
      catalog names, each at most once. */
  predicate ToppingsWellFormed(s: seq<string>)
  {
    NoDuplicates(s) && forall i :: 0 <= i < |s| ==> s[i] in CatalogTexts()
  }

  /** Filtering keeps the count of every value other than `t` (and, by its
      contract, leaves no `t`). */
  lemma {:induction false} WithoutRemovesExactly(s: seq<string>, t: string)
    ensures forall x :: x != t ==> multiset(Without(s, t))[x] == multiset(s)[x]
  {
    if s != [] {
      WithoutRemovesExactly(s[1..], t);
      var head := if s[0] == t then [] else [s[0]];
      assert Without(s, t) == head + Without(s[1..], t);
      assert multiset(Without(s, t)) == multiset(head) + multiset(Without(s[1..], t));
      assert multiset(s) == multiset([s[0]]) + multiset(s[1..]) by { assert s == [s[0]] + s[1..]; }
    }
  }

  /** Filtering keeps every value other than the one filtered out. */
  lemma {:induction false} WithoutKeepsOthers(s: seq<string>, t: string)
    ensures forall x :: x in s && x != t ==> x in Without(s, t)
  {
    if s != [] {
      WithoutKeepsOthers(s[1..], t);
      forall x | x in s && x != t ensures x in Without(s, t) {
        if x != s[0] { assert x in s[1..]; }
      }
    }
  }

  /** Filtering is applied element by element, so it keeps the order of what it keeps. */
  lemma {:induction false} WithoutDistributes(a: seq<string>, b: seq<string>, t: string)
    ensures Without(a + b, t) == Without(a, t) + Without(b, t)
  {
    if a == [] {
      assert a + b == b;
    } else {
      var head := if a[0] == t then [] else [a[0]];
      assert (a + b)[0] == a[0];
      assert (a + b)[1..] == a[1..] + b;
      assert Without(a + b, t) == head + Without(a[1..] + b, t);
      WithoutDistributes(a[1..], b, t);
      assert Without(a, t) == head + Without(a[1..], t);
    }
  }

  /** A list without `t` is left as it is. */
  lemma {:induction false} WithoutAbsent(s: seq<string>, t: string)
    requires t !in s
    ensures Without(s, t) == s
  {
    if s != [] {
      assert t !in s[1..];
      WithoutAbsent(s[1..], t);
    }
  }

  /** Unchecking twice is the same as unchecking once. */
  lemma WithoutIdempotent(s: seq<string>, t: string)
    ensures Without(Without(s, t), t) == Without(s, t)
  {
    WithoutRemovesExactly(s, t);
    WithoutAbsent(Without(s, t), t);
  }

  /** Checking a topping that is not selected and then unchecking it restores the list. */
  lemma CheckThenUncheck(s: seq<string>, t: string)
    requires t !in s
    ensures Toggled(Toggled(s, t, true), t, false) == s
  {
    WithoutDistributes(s, [t], t);
    WithoutAbsent(s, t);
  }

  /** The checkbox for `name` is rendered checked exactly when `name` is in the
      list, so a change event carries `checked == (name !in s)`; driven that
      way, the list keeps only catalog names, each at most once. */
  lemma ToggleKeepsWellFormed(s: seq<string>, name: string, checked: bool)
    requires ToppingsWellFormed(s)
    requires name in CatalogTexts()
    requires checked == (name !in s)
    ensures ToppingsWellFormed(Toggled(s, name, checked))
  {
    if !checked {
      WithoutKeepsWellFormed(s, name);
    }
  }

  lemma {:induction false} WithoutKeepsWellFormed(s: seq<string>, t: string)
    requires ToppingsWellFormed(s)
    ensures ToppingsWellFormed(Without(s, t))
    ensures forall x :: x in Without(s, t) ==> x in s
  {
    if s != [] {
      assert ToppingsWellFormed(s[1..]);
      WithoutKeepsWellFormed(s[1..], t);
      var rest := Without(s[1..], t);
      assert s[0] !in s[1..];
      assert s[0] !in rest;
    }
  }
}
