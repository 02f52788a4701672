/** Required-field validation shared by every entity constructor: a field is
    missing only when it is unset (`None`); an empty string, zero or an empty
    list is a value like any other. A construction with missing fields fails
    with a single `ElementRequiredError` naming every missing field, in the
    order the fields are declared. */
module Validation {
  import opened Text
  import opened Optional

  /** The outcome of an entity constructor: the entity, or
      `ElementRequiredError` with the names of the missing required fields. */
  datatype Result<+T> = Ok(value: T) | Err(missing: seq<string>)

  /** The name of a required field when the caller left it unset, and
      nothing otherwise. A constructor concatenates these in declaration order,
      so the error lists every missing field in that order. */
  function MissingIfUnset<T>(name: string, value: Option<T>): (r: seq<string>)
    ensures r == [] <==> value.Some?
    ensures forall n :: n in r <==> n == name && value.None?
    ensures Subsequence(r, [name])
  {
    if value.None? then [name] else []
  }

  /** No name occurs twice. */
  predicate Distinct(names: seq<string>) {
    forall i, j :: 0 <= i < j < |names| ==> names[i] != names[j]
  }

  /** `names` can be obtained from `declared` by leaving entries out. */
  predicate Subsequence(names: seq<string>, declared: seq<string>)
    decreases |declared|
  {
    if names == [] then true
    else if declared == [] then false
    else (names[0] == declared[0] && Subsequence(names[1..], declared[1..]))
         || Subsequence(names, declared[1..])
  }

  /** The names are distinct and come in the order in which `declared` lists
      them. */
  predicate InDeclarationOrder(names: seq<string>, declared: seq<string>) {
    Distinct(names) && Subsequence(names, declared)
  }

  /** Every name of a subsequence is one of the declared names. */
  lemma {:induction false} SubsequenceMembers(names: seq<string>, declared: seq<string>, n: string)
    requires Subsequence(names, declared) && n in names
    ensures n in declared
    decreases |declared|
  {
    if names[0] == declared[0] && Subsequence(names[1..], declared[1..]) {
      if n != names[0] {
        SubsequenceMembers(names[1..], declared[1..], n);
      }
    } else {
      SubsequenceMembers(names, declared[1..], n);
    }
  }

  /** A subsequence of distinct names is distinct. */
  lemma {:induction false} SubsequenceDistinct(names: seq<string>, declared: seq<string>)
    requires Subsequence(names, declared) && Distinct(declared)
    ensures Distinct(names)
    decreases |declared|
  {
    if names == [] {
    } else if names[0] == declared[0] && Subsequence(names[1..], declared[1..]) {
      assert Distinct(declared[1..]);
      SubsequenceDistinct(names[1..], declared[1..]);
      forall j | 0 < j < |names|
        ensures names[0] != names[j]
      {
        SubsequenceMembers(names[1..], declared[1..], names[j]);
      }
    } else {
      assert Distinct(declared[1..]);
      SubsequenceDistinct(names, declared[1..]);
    }
  }

  /** The missing name of the first declared field, followed by missing names
      taken in order from the later fields, is in declaration order. */
  lemma MissingInOrder<T>(name: string, value: Option<T>, rest: seq<string>, declared: seq<string>)
    requires declared != [] && declared[0] == name && Subsequence(rest, declared[1..])
    ensures Subsequence(MissingIfUnset(name, value) + rest, declared)
  {
    if value.None? {
      assert ([name] + rest)[1..] == rest;
    } else {
      assert [] + rest == rest;
    }
  }

  /** The missing names of two fields, in declaration order. */
  function MissingOf2<A, B>(n1: string, v1: Option<A>, n2: string, v2: Option<B>): (r: seq<string>)
    ensures r == [] <==> v1.Some? && v2.Some?
    ensures forall n :: n in r <==> (n == n1 && v1.None?) || (n == n2 && v2.None?)
    ensures Subsequence(r, [n1, n2])
  {
    var rest := MissingIfUnset(n2, v2);
    MissingInOrder(n1, v1, rest, [n1, n2]);
    MissingIfUnset(n1, v1) + rest
  }

  /** The missing names of three fields, in declaration order. */
  function MissingOf3<A, B, C>(n1: string, v1: Option<A>, n2: string, v2: Option<B>,
                               n3: string, v3: Option<C>): (r: seq<string>)
    ensures r == [] <==> v1.Some? && v2.Some? && v3.Some?
    ensures forall n :: n in r <==> (n == n1 && v1.None?) || (n == n2 && v2.None?) || (n == n3 && v3.None?)
    ensures Subsequence(r, [n1, n2, n3])
  {
    var rest := MissingOf2(n2, v2, n3, v3);
    assert [n1, n2, n3][1..] == [n2, n3];
    MissingInOrder(n1, v1, rest, [n1, n2, n3]);
    MissingIfUnset(n1, v1) + rest
  }

  /** The missing names of four fields, in declaration order. */
  function MissingOf4<A, B, C, D>(n1: string, v1: Option<A>, n2: string, v2: Option<B>,
                                  n3: string, v3: Option<C>, n4: string, v4: Option<D>): (r: seq<string>)
    ensures r == [] <==> v1.Some? && v2.Some? && v3.Some? && v4.Some?
    ensures forall n :: n in r <==>
      (n == n1 && v1.None?) || (n == n2 && v2.None?) || (n == n3 && v3.None?) || (n == n4 && v4.None?)
    ensures Subsequence(r, [n1, n2, n3, n4])
  {
    var rest := MissingOf3(n2, v2, n3, v3, n4, v4);
    assert [n1, n2, n3, n4][1..] == [n2, n3, n4];
    MissingInOrder(n1, v1, rest, [n1, n2, n3, n4]);
    MissingIfUnset(n1, v1) + rest
  }

  /** The missing names of five fields, in declaration order. */
  function MissingOf5<A, B, C, D, E>(n1: string, v1: Option<A>, n2: string, v2: Option<B>,
                                     n3: string, v3: Option<C>, n4: string, v4: Option<D>,
                                     n5: string, v5: Option<E>): (r: seq<string>)
    ensures r == [] <==> v1.Some? && v2.Some? && v3.Some? && v4.Some? && v5.Some?
    ensures forall n :: n in r <==>
      || (n == n1 && v1.None?) || (n == n2 && v2.None?) || (n == n3 && v3.None?)
      || (n == n4 && v4.None?) || (n == n5 && v5.None?)
    ensures Subsequence(r, [n1, n2, n3, n4, n5])
  {
    var rest := MissingOf4(n2, v2, n3, v3, n4, v4, n5, v5);
    assert [n1, n2, n3, n4, n5][1..] == [n2, n3, n4, n5];
    MissingInOrder(n1, v1, rest, [n1, n2, n3, n4, n5]);
    MissingIfUnset(n1, v1) + rest
  }

  function Quote(name: string): string {
    "\"" + name + "\""
  }

  /** The quoted names, separated by ", ". */
  function QuotedList(names: seq<string>): string {
    if |names| == 0 then ""
    else if |names| == 1 then Quote(names[0])
    else Quote(names[0]) + ", " + QuotedList(names[1..])
  }

  /** The text of `ElementRequiredError`: the quoted missing names, then this
      model's own wording " must be defined" (only the names are fixed). */
  function ErrorMessage(missing: seq<string>): string {
    QuotedList(missing) + " must be defined"
  }

  /** Every missing name appears, quoted, in the list. */
  lemma {:induction false} QuotedListNamesAll(names: seq<string>, n: string)
    requires n in names
    ensures Contains(QuotedList(names), Quote(n))
  {
    if |names| == 1 {
      ContainsMiddle("", Quote(n), "");
      assert "" + Quote(n) + "" == QuotedList(names);
    } else if names[0] == n {
      ContainsMiddle("", Quote(n), ", " + QuotedList(names[1..]));
      assert "" + Quote(n) + (", " + QuotedList(names[1..])) == QuotedList(names);
    } else {
      QuotedListNamesAll(names[1..], n);
      ContainsWithin(Quote(names[0]) + ", ", QuotedList(names[1..]), "", Quote(n));
      assert Quote(names[0]) + ", " + QuotedList(names[1..]) + "" == QuotedList(names);
    }
  }

  /** The error message names every missing field (`'title' in str(e)`). */
  lemma ErrorMessageNamesEveryField(missing: seq<string>, n: string)
    requires n in missing
    ensures Contains(ErrorMessage(missing), Quote(n))
    ensures Contains(ErrorMessage(missing), n)
  {
    QuotedListNamesAll(missing, n);
    ContainsWithin("", QuotedList(missing), " must be defined", Quote(n));
    assert "" + QuotedList(missing) + " must be defined" == ErrorMessage(missing);
    ContainsMiddle("\"", n, "\"");
    ContainsTransitive(ErrorMessage(missing), Quote(n), n);
  }
}
