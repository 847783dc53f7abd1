/**
 * The GraphQL query text the comparison tooling sends to the two indexers
 * (`subqueryQueryBuilder`, `subsquidQueryBuilder`): a field scheme rendered
 * one field per line, the paging variables rendered as arguments, both
 * placed in a fixed template. The `gql` tag only concatenates, so a query is
 * a plain string here.
 */
module QueryBuilders {
  import opened Text

  /** One entry of a `NodeScheme`: a field, or a field with sub-fields (`[name, fields]`). */
  datatype SchemeItem = Field(name: string) | Nested(name: string, fields: seq<string>)

  type NodeScheme = seq<SchemeItem>

  /** A scheme without nested entries. */
  predicate Flat(scheme: NodeScheme) {
    forall i :: 0 <= i < |scheme| ==> scheme[i].Field?
  }

  /** The entry names, nested or not. */
  function Names(scheme: NodeScheme): (r: seq<string>)
    ensures |r| == |scheme| && forall i :: 0 <= i < |scheme| ==> r[i] == scheme[i].name
  {
    seq(|scheme|, i requires 0 <= i < |scheme| => scheme[i].name)
  }

  /** The plain field names as a scheme. */
  function FieldsScheme(fields: seq<string>): (r: NodeScheme)
    ensures Flat(r) && Names(r) == fields
  {
    seq(|fields|, i requires 0 <= i < |fields| => Field(fields[i]))
  }

  /** `subqueryNodeSchemeToString`: every entry by its name only, one per line. */
  function SubqueryNodeSchemeToString(scheme: NodeScheme): (r: string)
    ensures |scheme| > 0 && (forall i :: 0 <= i < |scheme| ==> '\n' !in scheme[i].name) ==> Split(r, '\n') == Names(scheme)
  {
    assert |scheme| > 0 && (forall i :: 0 <= i < |scheme| ==> '\n' !in scheme[i].name) ==>
             Split(Join(Names(scheme), "\n"), '\n') == Names(scheme) by {
      if |scheme| > 0 && (forall i :: 0 <= i < |scheme| ==> '\n' !in scheme[i].name) {
        SplitJoin(Names(scheme), '\n');
      }
    }
    Join(Names(scheme), "\n")
  }

  function Depth(scheme: NodeScheme): nat {
    if Flat(scheme) then 0 else 1
  }

  /**
   * `subsquidNodeSchemeToString`: plain names as they are, nested entries as
   * `name { <sub-fields> }`; on a scheme without nested entries it renders
   * as the Subquery renderer does.
   */
  function SubsquidNodeSchemeToString(scheme: NodeScheme): (r: string)
    ensures Flat(scheme) ==> r == SubqueryNodeSchemeToString(scheme)
    decreases Depth(scheme)
  {
    var lines := seq(|scheme|, i requires 0 <= i < |scheme| =>
                       match scheme[i]
                       case Field(name) => name
                       case Nested(name, fields) =>
                         assert !Flat(scheme) && Depth(FieldsScheme(fields)) == 0;
                         name + " { " + SubsquidNodeSchemeToString(FieldsScheme(fields)) + " }");
    assert Flat(scheme) ==> lines == Names(scheme);
    Join(lines, "\n")
  }

  /** A nested entry renders as its name, then its sub-fields one per line between braces. */
  lemma NestedEntryRendering(scheme: NodeScheme, i: nat)
    requires i < |scheme| && scheme[i].Nested?
    ensures SubsquidNodeSchemeToString([scheme[i]])
            == scheme[i].name + " { " + Join(scheme[i].fields, "\n") + " }"
  {
    var fields := FieldsScheme(scheme[i].fields);
    assert SubsquidNodeSchemeToString(fields) == SubqueryNodeSchemeToString(fields);
  }

  /** The values `variablesToString` meets: `null`, a number, a string. */
  datatype VariableValue = Null | Number(n: int) | Str(s: string)

  /** `${value}`, with strings in double quotes. */
  function ValueToString(v: VariableValue): string {
    match v
    case Null => "null"
    case Number(n) => IntToString(n)
    case Str(s) => "\"" + s + "\""
  }

  /** `key: value` for each entry whose value is not `null`, in order. */
  function VariableEntries(variables: seq<(string, VariableValue)>): (r: seq<string>)
    ensures |r| <= |variables|
    ensures (forall i :: 0 <= i < |variables| ==> variables[i].1 == Null) ==> r == []
    ensures |variables| == 1 && variables[0].1 != Null ==> r == [variables[0].0 + ": " + ValueToString(variables[0].1)]
    decreases |variables|
  {
    if |variables| == 0 then []
    else
      var (key, value) := variables[0];
      (if value == Null then [] else [key + ": " + ValueToString(value)]) + VariableEntries(variables[1..])
  }

  /** `variablesToString`: the non-null entries joined by `", "`. */
  function VariablesToString(variables: seq<(string, VariableValue)>): (r: string)
    ensures (forall i :: 0 <= i < |variables| ==> variables[i].1 == Null) ==> r == ""
    ensures |variables| == 1 && variables[0].1 != Null ==> r == variables[0].0 + ": " + ValueToString(variables[0].1)
  {
    Join(VariableEntries(variables), ", ")
  }

  /** Entries whose value is `null` leave no trace. */
  lemma {:induction false} NullsDropped(variables: seq<(string, VariableValue)>, key: string)
    ensures VariablesToString(variables + [(key, Null)]) == VariablesToString(variables)
  {
    NullEntryDropped(variables, key);
  }

  lemma {:induction false} NullEntryDropped(variables: seq<(string, VariableValue)>, key: string)
    ensures VariableEntries(variables + [(key, Null)]) == VariableEntries(variables)
  {
    if |variables| == 0 {
      assert ([(key, Null)])[1..] == [];
    } else {
      assert (variables + [(key, Null)])[1..] == variables[1..] + [(key, Null)];
      NullEntryDropped(variables[1..], key);
    }
  }

  /** The query template both builders fill in. */
  function Template(head: string, fields: string): string {
    "\n\t\tquery MyQuery {\n\t\t\t" + head + " {\n\t\t\t\ttotalCount\n\t\t\t\tedges {\n\t\t\t\t\tnode {\n\t\t\t\t\t\t"
    + fields + "\n\t\t\t\t\t}\n\t\t\t\t}\n\t\t\t}\n\t\t}\n\t"
  }

  /** The variables of `subqueryQueryBuilder`. */
  function SubqueryVariables(limit: int, offset: int): seq<(string, VariableValue)> {
    [("first", Number(limit)), ("offset", Number(offset))]
  }

  /** The variables of `subsquidQueryBuilder`: `after` is `String(offset)` for a positive offset, else `null`. */
  function SubsquidVariables(limit: int, offset: int): seq<(string, VariableValue)> {
    [("first", Number(limit)), ("after", if offset > 0 then Str(IntToString(offset)) else Null)]
  }

  /** `subqueryQueryBuilder`. */
  function SubqueryQueryBuilder(name: string, scheme: NodeScheme, limit: int, offset: int): (r: string)
    ensures r == Template(name + "(" + ("first: " + IntToString(limit) + ", offset: " + IntToString(offset)) + ")",
                          SubqueryNodeSchemeToString(scheme))
  {
    SubqueryArguments(limit, offset);
    Template(name + "(" + VariablesToString(SubqueryVariables(limit, offset)) + ")", SubqueryNodeSchemeToString(scheme))
  }

  /** `subsquidQueryBuilder`: ordered by id, paged by cursor. */
  function SubsquidQueryBuilder(name: string, scheme: NodeScheme, limit: int, offset: int): (r: string)
    ensures offset > 0 ==>
              r == Template(name + "(orderBy: id_ASC, "
                            + ("first: " + IntToString(limit) + ", after: \"" + IntToString(offset) + "\"") + ")",
                            SubsquidNodeSchemeToString(scheme))
    ensures offset <= 0 ==>
              r == Template(name + "(orderBy: id_ASC, " + ("first: " + IntToString(limit)) + ")",
                            SubsquidNodeSchemeToString(scheme))
  {
    SubsquidArguments(limit, offset);
    Template(name + "(orderBy: id_ASC, " + VariablesToString(SubsquidVariables(limit, offset)) + ")",
             SubsquidNodeSchemeToString(scheme))
  }

  /** Two non-null entries render as `k0: v0, k1: v1`. */
  lemma TwoEntries(k0: string, v0: VariableValue, k1: string, v1: VariableValue)
    requires v0 != Null && v1 != Null
    ensures VariablesToString([(k0, v0), (k1, v1)])
            == k0 + ": " + ValueToString(v0) + ", " + k1 + ": " + ValueToString(v1)
  {
    var vars := [(k0, v0), (k1, v1)];
    var e0, e1 := k0 + ": " + ValueToString(v0), k1 + ": " + ValueToString(v1);
    assert vars[1..] == [(k1, v1)] && vars[1..][1..] == [];
    assert VariableEntries(vars[1..]) == [e1];
    assert VariableEntries(vars) == [e0, e1];
    assert [e0, e1][1..] == [e1];
    assert Join([e0, e1], ", ") == e0 + ", " + e1;
    assert e0 + ", " + e1 == k0 + ": " + ValueToString(v0) + ", " + k1 + ": " + ValueToString(v1);
  }

  /** A non-null entry followed by a null one renders as `k0: v0`. */
  lemma EntryThenNull(k0: string, v0: VariableValue, k1: string)
    requires v0 != Null
    ensures VariablesToString([(k0, v0), (k1, Null)]) == k0 + ": " + ValueToString(v0)
  {
    var vars := [(k0, v0), (k1, Null)];
    assert vars[1..] == [(k1, Null)] && vars[1..][1..] == [];
    assert VariableEntries(vars[1..]) == [];
    assert VariableEntries(vars) == [k0 + ": " + ValueToString(v0)];
  }

  /** The subquery arguments: always both `first` and `offset`. */
  lemma SubqueryArguments(limit: int, offset: int)
    ensures VariablesToString(SubqueryVariables(limit, offset))
            == "first: " + IntToString(limit) + ", offset: " + IntToString(offset)
  {
    TwoEntries("first", Number(limit), "offset", Number(offset));
    assert "first" + ": " == "first: " && ", " + "offset" + ": " == ", offset: ";
  }

  /** The subsquid arguments: `after` appears, quoted, exactly when the offset is positive. */
  lemma SubsquidArguments(limit: int, offset: int)
    ensures offset > 0 ==> VariablesToString(SubsquidVariables(limit, offset))
                           == "first: " + IntToString(limit) + ", after: \"" + IntToString(offset) + "\""
    ensures offset <= 0 ==> VariablesToString(SubsquidVariables(limit, offset)) == "first: " + IntToString(limit)
  {
    if offset > 0 {
      CursorArguments(limit, offset);
    } else {
      assert "first" + ": " == "first: ";
      EntryThenNull("first", Number(limit), "after");
    }
  }

  /** With a cursor both `first` and `after` are passed, the cursor quoted. */
  lemma CursorArguments(limit: int, offset: int)
    requires offset > 0
    ensures VariablesToString(SubsquidVariables(limit, offset))
            == "first: " + IntToString(limit) + ", after: \"" + IntToString(offset) + "\""
  {
    var l, n := IntToString(limit), IntToString(offset);
    TwoEntries("first", Number(limit), "after", Str(n));
    CursorLiterals(l, n);
  }

  lemma CursorLiterals(l: string, n: string)
    ensures "first" + ": " + l + ", " + "after" + ": " + ("\"" + n + "\"")
            == "first: " + l + ", after: \"" + n + "\""
  {
    assert "first" + ": " == "first: ";
    assert ", " + "after" + ": " + "\"" == ", after: \"";
  }

  /** The template determines what was put into it. */
  lemma TemplateInjective(h1: string, f1: string, h2: string, f2: string)
    requires |f1| == |f2|
    requires Template(h1, f1) == Template(h2, f2)
    ensures h1 == h2 && f1 == f2
  {
    var p := "\n\t\tquery MyQuery {\n\t\t\t";
    var m := " {\n\t\t\t\ttotalCount\n\t\t\t\tedges {\n\t\t\t\t\tnode {\n\t\t\t\t\t\t";
    var q := "\n\t\t\t\t\t}\n\t\t\t\t}\n\t\t\t}\n\t\t}\n\t";
    var t1, t2 := Template(h1, f1), Template(h2, f2);
    assert t1 == p + h1 + m + f1 + q && t2 == p + h2 + m + f2 + q;
    assert |h1| == |h2|;
    assert h1 == t1[|p|..|p| + |h1|];
    assert h2 == t2[|p|..|p| + |h2|];
    assert f1 == t1[|p| + |h1| + |m|..|p| + |h1| + |m| + |f1|];
    assert f2 == t2[|p| + |h2| + |m|..|p| + |h2| + |m| + |f2|];
  }

  /** A string between a fixed prefix and a fixed suffix is determined by the whole. */
  lemma InfixInjective(p: string, x: string, y: string, q: string)
    requires p + x + q == p + y + q
    ensures x == y
  {
    var w := p + x + q;
    assert x == w[|p|..|w| - |q|];
  }

  /** A string after a fixed prefix is determined by the whole. */
  lemma SuffixInjective(p: string, x: string, y: string)
    requires p + x == p + y
    ensures x == y
  {
    assert x == (p + x)[|p|..];
  }

  /** Distinct offsets give distinct subquery pages. */
  lemma SubqueryPagesDistinct(name: string, scheme: NodeScheme, limit: int, o1: int, o2: int)
    requires SubqueryQueryBuilder(name, scheme, limit, o1) == SubqueryQueryBuilder(name, scheme, limit, o2)
    ensures o1 == o2
  {
    var a1, a2 := VariablesToString(SubqueryVariables(limit, o1)), VariablesToString(SubqueryVariables(limit, o2));
    var fields := SubqueryNodeSchemeToString(scheme);
    TemplateInjective(name + "(" + a1 + ")", fields, name + "(" + a2 + ")", fields);
    InfixInjective(name + "(", a1, a2, ")");
    SubqueryArguments(limit, o1);
    SubqueryArguments(limit, o2);
    SuffixInjective("first: " + IntToString(limit) + ", offset: ", IntToString(o1), IntToString(o2));
    IntToStringInjective(o1, o2);
  }

  /** Every offset that is not positive asks for the first subsquid page. */
  lemma SubsquidFirstPage(name: string, scheme: NodeScheme, limit: int, offset: int)
    requires offset <= 0
    ensures SubsquidQueryBuilder(name, scheme, limit, offset) == SubsquidQueryBuilder(name, scheme, limit, 0)
  {
    SubsquidArguments(limit, offset);
    SubsquidArguments(limit, 0);
  }

  /** Distinct positive offsets give distinct subsquid pages. */
  lemma SubsquidPagesDistinct(name: string, scheme: NodeScheme, limit: int, o1: int, o2: int)
    requires o1 > 0 && o2 > 0
    requires SubsquidQueryBuilder(name, scheme, limit, o1) == SubsquidQueryBuilder(name, scheme, limit, o2)
    ensures o1 == o2
  {
    var a1, a2 := VariablesToString(SubsquidVariables(limit, o1)), VariablesToString(SubsquidVariables(limit, o2));
    var fields := SubsquidNodeSchemeToString(scheme);
    TemplateInjective(name + "(orderBy: id_ASC, " + a1 + ")", fields, name + "(orderBy: id_ASC, " + a2 + ")", fields);
    InfixInjective(name + "(orderBy: id_ASC, ", a1, a2, ")");
    SubsquidArguments(limit, o1);
    SubsquidArguments(limit, o2);
    InfixInjective("first: " + IntToString(limit) + ", after: \"", IntToString(o1), IntToString(o2), "\"");
    IntToStringInjective(o1, o2);
  }
}
