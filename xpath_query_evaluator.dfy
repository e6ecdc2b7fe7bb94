/** The user-manager query evaluator: it serialises a query's condition tree
    into an XPath string appended to a buffer, runs the query through the
    repository's query engine and keeps the results the group rule admits.
    The query engine and the user directory are parameters. */
module XPathQueries {
  import opened Wrappers
  import opened PropertyTypes

  /** A relation of a property condition: EX (the property exists) or an
      operator with its XPath token. */
  datatype RelationOp = Ex | Op(token: string)

  /** A JCR value: its property type and its string form. */
  datatype Value = Value(vtype: PropertyType, text: string)

  datatype Condition =
    | PropertyCondition(relPath: string, op: RelationOp, value: Value)
    | ContainsCondition(relPath: string, searchExpr: string)
    | ImpersonationCondition(name: string)
    | NotCondition(condition: Condition)
    | AndCondition(terms: seq<Condition>)
    | OrCondition(terms: seq<Condition>)

  /** The RepositoryException format raises: no XPath form for the type. */
  datatype QueryError = UnsupportedType(vtype: PropertyType)

  //---------------------------------------------------------------------------
  // Values

  /** The types format knows. */
  predicate Formattable(t: PropertyType) {
    t == String || t == Boolean || t == Long || t == Double || t == Date
  }

  const DatePrefix := "xs:dateTime('"
  const DateSuffix := "')"

  /** STRING and BOOLEAN are quoted, LONG and DOUBLE are bare, DATE becomes
      an xs:dateTime call; nothing is escaped. */
  function Format(v: Value): (r: Result<string, QueryError>)
    ensures r.Ok? <==> Formattable(v.vtype)
    ensures r.Err? ==> r.error == UnsupportedType(v.vtype)
  {
    match v.vtype
    case String => Ok("'" + v.text + "'")
    case Boolean => Ok("'" + v.text + "'")
    case Long => Ok(v.text)
    case Double => Ok(v.text)
    case Date => Ok(DatePrefix + v.text + DateSuffix)
    case _ => Err(UnsupportedType(v.vtype))
  }

  /** Reads the text of a value of type `t` back from its XPath form. */
  function ParseValue(t: PropertyType, s: string): Option<string> {
    if t == String || t == Boolean then
      if 2 <= |s| && s[0] == '\'' && s[|s| - 1] == '\'' then Some(s[1..|s| - 1]) else None
    else if t == Long || t == Double then Some(s)
    else if t == Date then
      if |DatePrefix| + |DateSuffix| <= |s| && s[..|DatePrefix|] == DatePrefix && s[|s| - |DateSuffix|..] == DateSuffix
      then Some(s[|DatePrefix|..|s| - |DateSuffix|])
      else None
    else None
  }

  /** The formatted value carries the value's text unchanged: it can be read
      back, and so two values of one type format alike only if equal. */
  lemma FormatRoundTrip(v: Value)
    requires Formattable(v.vtype)
    ensures ParseValue(v.vtype, Format(v).value) == Some(v.text)
  {
    var s := Format(v).value;
    if v.vtype == Date {
      assert s[..|DatePrefix|] == DatePrefix;
      assert s[|s| - |DateSuffix|..] == DateSuffix;
      assert s[|DatePrefix|..|s| - |DateSuffix|] == v.text;
    } else if v.vtype == String || v.vtype == Boolean {
      assert s[1..|s| - 1] == v.text;
    }
  }

  lemma FormatInjective(v: Value, w: Value)
    requires Formattable(v.vtype) && v.vtype == w.vtype && Format(v) == Format(w)
    ensures v == w
  {
    FormatRoundTrip(v);
    FormatRoundTrip(w);
  }

  //---------------------------------------------------------------------------
  // The XPath form of a condition

  /** The reference definition of the visitor: what it appends for `c`, or
      the first value it cannot format. The visit methods are proved equal
      to it. */
  function Serialize(c: Condition): Result<string, QueryError>
    decreases c, 1
  {
    match c
    case PropertyCondition(relPath, op, value) =>
      if op.Ex? then Ok(relPath)
      else
        var f := Format(value);
        if f.Err? then Err(f.error) else Ok(relPath + op.token + f.value)
    case ContainsCondition(relPath, searchExpr) => Ok("jcr:contains(" + relPath + ",'" + searchExpr + "')")
    case ImpersonationCondition(name) => Ok("@rep:impersonators='" + name + "'")
    case NotCondition(sub) =>
      var s := Serialize(sub);
      if s.Err? then s else Ok("not(" + s.value + ")")
    case AndCondition(terms) => Joined(terms, " and ")
    case OrCondition(terms) =>
      var s := Joined(terms, " or ");
      if s.Err? || |terms| <= 1 then s else Ok("(" + s.value + ")")
  }

  /** The reference definition of the And/Or loop: the terms' forms in order,
      `sep` between neighbours; the first term that fails decides the error. */
  function Joined(terms: seq<Condition>, sep: string): Result<string, QueryError>
    decreases terms, 0
  {
    if terms == [] then Ok("")
    else
      var init := Joined(terms[..|terms| - 1], sep);
      if init.Err? then init
      else
        var last := Serialize(terms[|terms| - 1]);
        if last.Err? then last
        else Ok(init.value + (if |terms| > 1 then sep else "") + last.value)
  }

  /** Some property condition below `c` compares with a value format
      rejects. */
  predicate HasUnsupportedValue(c: Condition)
    decreases c, 1
  {
    match c
    case PropertyCondition(_, op, value) => op.Op? && !Formattable(value.vtype)
    case ContainsCondition(_, _) => false
    case ImpersonationCondition(_) => false
    case NotCondition(sub) => HasUnsupportedValue(sub)
    case AndCondition(terms) => AnyUnsupported(terms)
    case OrCondition(terms) => AnyUnsupported(terms)
  }

  predicate AnyUnsupported(terms: seq<Condition>)
    decreases terms, 0
  {
    terms != [] && (AnyUnsupported(terms[..|terms| - 1]) || HasUnsupportedValue(terms[|terms| - 1]))
  }

  /** Serialisation fails exactly when some compared value has an unsupported
      type; EX conditions never format their value. */
  lemma {:induction false} SerializeFailsIff(c: Condition)
    ensures Serialize(c).Err? <==> HasUnsupportedValue(c)
    decreases c, 1
  {
    match c
    case PropertyCondition(_, _, _) =>
    case ContainsCondition(_, _) =>
    case ImpersonationCondition(_) =>
    case NotCondition(sub) => SerializeFailsIff(sub);
    case AndCondition(terms) => JoinedFailsIff(terms, " and ");
    case OrCondition(terms) => JoinedFailsIff(terms, " or ");
  }

  lemma {:induction false} JoinedFailsIff(terms: seq<Condition>, sep: string)
    ensures Joined(terms, sep).Err? <==> AnyUnsupported(terms)
    decreases terms, 0
  {
    if terms != [] {
      JoinedFailsIff(terms[..|terms| - 1], sep);
      SerializeFailsIff(terms[|terms| - 1]);
    }
  }

  /** An Or of one term adds nothing around it; an And never adds
      parentheses. */
  lemma OrOfOne(c: Condition)
    ensures Serialize(OrCondition([c])) == Serialize(c)
    ensures Serialize(AndCondition([c])) == Serialize(c)
  {
    assert [c][..0] == [];
    var s := Serialize(c);
    assert Joined([c][..0], " or ") == Ok("") && Joined([c][..0], " and ") == Ok("");
    if s.Ok? {
      assert "" + "" + s.value == s.value;
      assert Joined([c], " or ") == Ok("" + "" + s.value);
      assert Joined([c], " and ") == Ok("" + "" + s.value);
    }
  }

  /** An Or of two or more terms is its terms joined by " or ", in
      parentheses. */
  lemma OrParenthesised(terms: seq<Condition>)
    requires |terms| > 1 && Joined(terms, " or ").Ok?
    ensures Serialize(OrCondition(terms)) == Ok("(" + Joined(terms, " or ").value + ")")
  {
  }

  //---------------------------------------------------------------------------
  // The query

  /** A sort clause: the column and the direction's XPath word. */
  datatype Sort = Sort(column: string, direction: string)

  /** What the query builder holds. */
  datatype QuerySpec = QuerySpec(
    ntName: string,
    condition: Option<Condition>,
    sort: Option<Sort>,
    maxCount: int,
    groupName: Option<string>,
    declaredMembersOnly: bool)

  const ElementPrefix := "//element(*,"
  const OrderBy := " order by "

  /** The full query string eval builds. */
  function Selector(q: QuerySpec): string {
    ElementPrefix + q.ntName + ")"
  }

  /** The bracketed condition, or nothing without one. */
  function ConditionPart(q: QuerySpec): Result<string, QueryError> {
    if q.condition.None? then Ok("")
    else
      var s := Serialize(q.condition.value);
      if s.Err? then s else Ok("[" + s.value + "]")
  }

  /** The order-by clause, or nothing without a sort column. */
  function SortPart(q: QuerySpec): string {
    if q.sort.Some? then OrderBy + q.sort.value.column + " " + q.sort.value.direction else ""
  }

  /** The full query string eval builds. */
  function QueryText(q: QuerySpec): Result<string, QueryError> {
    var body := ConditionPart(q);
    if body.Err? then body else Ok(Selector(q) + body.value + SortPart(q))
  }

  /** The query string opens with the element selector, continues with the
      bracketed condition only when there is one, and ends with the order-by
      clause only when a sort column is set. */
  lemma QueryTextShape(q: QuerySpec)
    requires QueryText(q).Ok?
    ensures var t := QueryText(q).value;
            var head := ElementPrefix + q.ntName + ")";
            && |head| <= |t| && t[..|head|] == head
            && (q.condition.None? && q.sort.None? ==> t == head)
            && (q.condition.Some? ==> |head| < |t| && t[|head|] == '[')
            && (q.condition.None? && q.sort.Some? ==> t == head + OrderBy + q.sort.value.column + " " + q.sort.value.direction)
            && (q.sort.Some? ==>
                  var tail := OrderBy + q.sort.value.column + " " + q.sort.value.direction;
                  |tail| <= |t| && t[|t| - |tail|..] == tail)
  {
    var t := QueryText(q).value;
    var head := ElementPrefix + q.ntName + ")";
    assert t[..|head|] == head;
    if q.sort.Some? {
      var tail := OrderBy + q.sort.value.column + " " + q.sort.value.direction;
      assert t[|t| - |tail|..] == tail;
    }
  }

  /** The max-count rule: 0 returns nothing, a positive count limits the
      query, a negative one leaves it unlimited. */
  function Limit(maxCount: int): (r: Option<nat>)
    requires maxCount != 0
    ensures r.Some? <==> maxCount > 0
    ensures r.Some? ==> r.value == maxCount
  {
    if maxCount > 0 then Some(maxCount) else None
  }

  //---------------------------------------------------------------------------
  // Results and the group rule

  /** A user or group of the directory. */
  datatype Authorizable = Authorizable(id: string, isGroup: bool)

  /** The user directory the results are read against. */
  datatype Directory = Directory(
    byName: string -> Option<Authorizable>,
    isMember: (Authorizable, Authorizable) -> bool,
    isDeclaredMember: (Authorizable, Authorizable) -> bool)

  /** The predicate filter picks. */
  datatype Selection = AdmitAll | AdmitNone | MembersOf(group: Authorizable, declaredOnly: bool)

  /** No group name admits everything; a name that is not a group's admits
      nothing; a group admits its (declared) members. */
  function SelectPredicate(groupName: Option<string>, declaredMembersOnly: bool, dir: Directory): (r: Selection)
    ensures groupName.None? <==> r.AdmitAll?
    ensures r.AdmitNone? <==> groupName.Some? && (dir.byName(groupName.value).None? || !dir.byName(groupName.value).value.isGroup)
    ensures r.MembersOf? ==> groupName.Some? && dir.byName(groupName.value) == Some(r.group) && r.group.isGroup &&
                             r.declaredOnly == declaredMembersOnly
  {
    if groupName.None? then AdmitAll
    else
      var groupAuth := dir.byName(groupName.value);
      if groupAuth.None? || !groupAuth.value.isGroup then AdmitNone
      else MembersOf(groupAuth.value, declaredMembersOnly)
  }

  /** Whether a result passes; a node that is no authorizable (None) passes
      only when everything does. Membership checks that fail count as "no". */
  predicate Admits(sel: Selection, a: Option<Authorizable>, dir: Directory) {
    match sel
    case AdmitAll => true
    case AdmitNone => false
    case MembersOf(group, declaredOnly) =>
      a.Some? && (if declaredOnly then dir.isDeclaredMember(group, a.value) else dir.isMember(group, a.value))
  }

  /** The results the selection admits, in order. */
  function Filter(results: seq<Option<Authorizable>>, sel: Selection, dir: Directory): (r: seq<Option<Authorizable>>)
    ensures |r| <= |results|
    ensures forall k :: 0 <= k < |r| ==> Admits(sel, r[k], dir)
    ensures forall a :: a in results && Admits(sel, a, dir) ==> a in r
    ensures forall a :: a in r ==> a in results
  {
    if results == [] then []
    else
      var rest := Filter(results[1..], sel, dir);
      if Admits(sel, results[0], dir) then [results[0]] + rest else rest
  }

  lemma {:induction false} FilterAll(results: seq<Option<Authorizable>>, dir: Directory)
    ensures Filter(results, AdmitAll, dir) == results
    decreases |results|
  {
    if results != [] {
      FilterAll(results[1..], dir);
    }
  }

  lemma {:induction false} FilterNone(results: seq<Option<Authorizable>>, dir: Directory)
    ensures Filter(results, AdmitNone, dir) == []
    decreases |results|
  {
    if results != [] {
      FilterNone(results[1..], dir);
    }
  }

  /** A single result is kept exactly when the selection admits it. */
  lemma FilterOne(a: Option<Authorizable>, sel: Selection, dir: Directory)
    ensures Filter([a], sel, dir) == if Admits(sel, a, dir) then [a] else []
  {
    assert [a][1..] == [];
  }

  /** Filtering distributes over concatenation: every admitted result is
      kept, once per occurrence, in the order of the input. Together with
      FilterOne this fixes the filtered sequence completely. */
  lemma {:induction false} FilterAppend(a: seq<Option<Authorizable>>, b: seq<Option<Authorizable>>, sel: Selection, dir: Directory)
    ensures Filter(a + b, sel, dir) == Filter(a, sel, dir) + Filter(b, sel, dir)
    decreases |a|
  {
    if a == [] {
      assert a + b == b;
    } else {
      assert (a + b)[0] == a[0];
      assert (a + b)[1..] == a[1..] + b;
      FilterAppend(a[1..], b, sel, dir);
    }
  }

  //---------------------------------------------------------------------------

  /** The evaluator: the query it serves and the XPath buffer its visits
      append to. */
  class XPathQueryEvaluator {
    const query: QuerySpec
    var xPath: string

    constructor (query: QuerySpec)
      ensures this.query == query && xPath == ""
    {
      this.query := query;
      xPath := "";
    }

    /** Serialises `c` onto the buffer by dispatching to its visit. */
    method Accept(c: Condition) returns (r: Outcome<QueryError>)
      modifies this
      ensures Serialize(c).Ok? ==> r == Pass && xPath == old(xPath) + Serialize(c).value
      ensures Serialize(c).Err? ==> r == Fail(Serialize(c).error)
      decreases c, 2
    {
      match c
      case PropertyCondition(relPath, op, value) => r := VisitProperty(relPath, op, value);
      case ContainsCondition(relPath, searchExpr) => VisitContains(relPath, searchExpr); r := Pass;
      case ImpersonationCondition(name) => VisitImpersonation(name); r := Pass;
      case NotCondition(_) => r := VisitNot(c);
      case AndCondition(_) => r := VisitAnd(c);
      case OrCondition(_) => r := VisitOr(c);
    }

    method VisitProperty(relPath: string, op: RelationOp, value: Value) returns (r: Outcome<QueryError>)
      modifies this
      ensures op.Ex? ==> r == Pass && xPath == old(xPath) + relPath
      ensures op.Op? && Formattable(value.vtype) ==> r == Pass && xPath == old(xPath) + relPath + op.token + Format(value).value
      ensures op.Op? && !Formattable(value.vtype) ==> r == Fail(UnsupportedType(value.vtype))
    {
      if op.Ex? {
        xPath := xPath + relPath;
      } else {
        xPath := xPath + relPath + op.token;
        var f := Format(value);
        if f.Err? {
          return Fail(f.error);
        }
        xPath := xPath + f.value;
      }
      return Pass;
    }

    method VisitContains(relPath: string, searchExpr: string)
      modifies this
      ensures xPath == old(xPath) + "jcr:contains(" + relPath + ",'" + searchExpr + "')"
    {
      xPath := xPath + "jcr:contains(" + relPath + ",'" + searchExpr + "')";
    }

    method VisitImpersonation(name: string)
      modifies this
      ensures xPath == old(xPath) + "@rep:impersonators='" + name + "'"
    {
      xPath := xPath + "@rep:impersonators='" + name + "'";
    }

    method VisitNot(c: Condition) returns (r: Outcome<QueryError>)
      requires c.NotCondition?
      modifies this
      ensures Serialize(c).Ok? ==> r == Pass && xPath == old(xPath) + Serialize(c).value
      ensures Serialize(c).Err? ==> r == Fail(Serialize(c).error)
      decreases c, 1
    {
      xPath := xPath + "not(";
      r := Accept(c.condition);
      if r.Fail? {
        return;
      }
      xPath := xPath + ")";
    }

    method VisitAnd(c: Condition) returns (r: Outcome<QueryError>)
      requires c.AndCondition?
      modifies this
      ensures Serialize(c).Ok? ==> r == Pass && xPath == old(xPath) + Serialize(c).value
      ensures Serialize(c).Err? ==> r == Fail(Serialize(c).error)
      decreases c, 1
    {
      r := VisitJoined(c, c.terms, " and ");
    }

    /** Appends the terms with `sep` between neighbours, as the And and Or
        visits' loops do, counting the terms appended. */
    method VisitJoined(ghost c: Condition, terms: seq<Condition>, sep: string) returns (r: Outcome<QueryError>)
      requires (c.AndCondition? || c.OrCondition?) && terms == c.terms
      modifies this
      ensures Joined(terms, sep).Ok? ==> r == Pass && xPath == old(xPath) + Joined(terms, sep).value
      ensures Joined(terms, sep).Err? ==> r == Fail(Joined(terms, sep).error)
      decreases c, 0
    {
      var count := 0;
      while count < |terms|
        invariant 0 <= count <= |terms|
        invariant Joined(terms[..count], sep).Ok?
        invariant xPath == old(xPath) + Joined(terms[..count], sep).value
      {
        xPath := xPath + (if count > 0 then sep else "");
        var t := terms[count];
        assert terms[..count + 1][..count] == terms[..count];
        r := Accept(t);
        if r.Fail? {
          JoinedErrPrefix(terms, count + 1, sep);
          return;
        }
        count := count + 1;
      }
      assert terms[..count] == terms;
      return Pass;
    }

    method VisitOr(c: Condition) returns (r: Outcome<QueryError>)
      requires c.OrCondition?
      modifies this
      ensures Serialize(c).Ok? ==> r == Pass && xPath == old(xPath) + Serialize(c).value
      ensures Serialize(c).Err? ==> r == Fail(Serialize(c).error)
      decreases c, 1
    {
      var pos := |xPath|;
      r := VisitJoined(c, c.terms, " or ");
      if r.Fail? {
        return;
      }
      var count := |c.terms|;
      if count > 1 {
        xPath := xPath[..pos] + "(" + xPath[pos..];
        xPath := xPath + ")";
      }
    }

    /** Appends the query string: the element selector, the condition in
        brackets when there is one, the order-by clause when a sort column
        is set. */
    method BuildQuery() returns (r: Outcome<QueryError>)
      modifies this
      ensures QueryText(query).Err? ==> r == Fail(QueryText(query).error)
      ensures QueryText(query).Ok? ==> r == Pass && xPath == old(xPath) + QueryText(query).value
    {
      xPath := xPath + Selector(query);
      r := AppendCondition();
      if r.Fail? {
        return;
      }
      xPath := xPath + SortPart(query);
      Associative(old(xPath), Selector(query), ConditionPart(query).value, SortPart(query));
    }

    /** The condition part of the query string: the condition in brackets. */
    method AppendCondition() returns (r: Outcome<QueryError>)
      modifies this
      ensures ConditionPart(query).Err? ==> r == Fail(ConditionPart(query).error)
      ensures ConditionPart(query).Ok? ==> r == Pass && xPath == old(xPath) + ConditionPart(query).value
    {
      if query.condition.Some? {
        xPath := xPath + "[";
        r := Accept(query.condition.value);
        if r.Fail? {
          return;
        }
        xPath := xPath + "]";
      }
      return Pass;
    }

    /** Builds the query string, runs it and filters the results. The engine
        returns the nodes for a query string and a limit; `authorizableOf`
        maps a node to its authorizable, or None when it is none. */
    method Eval<N>(engine: (string, Option<nat>) -> seq<N>, authorizableOf: N -> Option<Authorizable>, dir: Directory)
      returns (r: Result<seq<Option<Authorizable>>, QueryError>)
      modifies this
      ensures QueryText(query).Err? ==> r == Err(QueryText(query).error)
      ensures QueryText(query).Ok? ==> xPath == old(xPath) + QueryText(query).value
      ensures QueryText(query).Ok? && query.maxCount == 0 ==> r == Ok([])
      ensures QueryText(query).Ok? && query.maxCount != 0 ==>
                r == Ok(Filter(Results(engine(xPath, Limit(query.maxCount)), authorizableOf),
                               SelectPredicate(query.groupName, query.declaredMembersOnly, dir), dir))
    {
      var b := BuildQuery();
      if b.Fail? {
        return Err(b.error);
      }
      var text := xPath;
      var count := query.maxCount;
      if count == 0 {
        return Ok([]);
      }
      var limit: Option<nat> := None;
      if count > 0 {
        limit := Some(count);
      }
      var nodes := engine(text, limit);
      var sel := SelectPredicate(query.groupName, query.declaredMembersOnly, dir);
      return Ok(Filter(Results(nodes, authorizableOf), sel, dir));
    }
  }

  lemma Associative(a: string, b: string, c: string, d: string)
    ensures a + b + c + d == a + (b + c + d)
  {
  }

  /** The authorizable of each node, in order. */
  function Results<N>(nodes: seq<N>, authorizableOf: N -> Option<Authorizable>): (r: seq<Option<Authorizable>>)
    ensures |r| == |nodes| && forall k :: 0 <= k < |nodes| ==> r[k] == authorizableOf(nodes[k])
  {
    seq(|nodes|, k requires 0 <= k < |nodes| => authorizableOf(nodes[k]))
  }

  /** Once a prefix of the terms fails, the whole join fails the same way. */
  lemma {:induction false} JoinedErrPrefix(terms: seq<Condition>, n: nat, sep: string)
    requires n <= |terms| && Joined(terms[..n], sep).Err?
    ensures Joined(terms, sep) == Joined(terms[..n], sep)
    decreases |terms| - n
  {
    if n < |terms| {
      assert terms[..n + 1][..n] == terms[..n];
      JoinedErrPrefix(terms, n + 1, sep);
    } else {
      assert terms[..n] == terms;
    }
  }
}
