/**
  The generic list-query helper every listing endpoint chains as
  `search(...).filter().sort().pagination().fields()` followed by
  `countTotal()`. Request query parameters are strings; each step turns
  them into the clause it adds to the database query.
 */
module QueryBuilder {
  import opened Common
  import opened JsNumbers

  type Query = map<string, string>

  function Param(q: Query, key: string): Option<string> {
    if key in q then Some(q[key]) else None
  }

  /** `Number(this.query[key])`: an absent parameter is `Number(undefined)`, i.e. `NaN`. */
  function NumberParam(q: Query, key: string): Num {
    if key in q then ToNumber(q[key]) else NaN
  }

  /** `{ [field]: { $regex: term, $options: 'i' } }` */
  datatype RegexClause = RegexClause(field: string, term: string, caseInsensitive: bool)

  /** `search(fields)`: an `$or` of case-insensitive regex clauses, one per
      field, added only when `searchTerm` is a non-empty string. */
  function Search(q: Query, fields: seq<string>): (r: Option<seq<RegexClause>>)
    ensures r.Some? <==> Truthy(Param(q, "searchTerm"))
    ensures r.Some? ==> |r.value| == |fields|
    ensures r.Some? ==> forall i :: 0 <= i < |fields| ==>
              r.value[i] == RegexClause(fields[i], q["searchTerm"], true)
  {
    if Truthy(Param(q, "searchTerm")) then
      Some(seq(|fields|, i requires 0 <= i < |fields| => RegexClause(fields[i], q["searchTerm"], true)))
    else None
  }

  /** The parameters `filter()` deletes before using the rest as equality filters. */
  const ReservedKeys: set<string> := {"searchTerm", "sort", "limit", "page", "fields"}

  /** `filter()`: every parameter except the five reserved ones becomes an
      equality condition with its own value. */
  function Filter(q: Query): (r: map<string, string>)
    ensures r.Keys == q.Keys - ReservedKeys
    ensures forall k :: k in r ==> r[k] == q[k]
  {
    map k | k in q && k !in ReservedKeys :: q[k]
  }

  /** A comma-separated parameter turned into the space-separated form the
      database driver takes (`s.split(',').join(' ')`): every comma becomes
      a space and every other character stays where it was. */
  function CommasToSpaces(s: string): (r: string)
    ensures |r| == |s| && Excludes(r, ',')
    ensures forall i :: 0 <= i < |s| ==> r[i] == (if s[i] == ',' then ' ' else s[i])
  {
    ReplaceChar(s, ',', ' ')
  }

  /** `sort()`: the comma list as a space list, `-createdAt` when absent or empty. */
  function SortSpec(q: Query): (r: string)
    ensures Truthy(Param(q, "sort")) ==>
              && |r| == |q["sort"]|
              && forall i :: 0 <= i < |r| ==> r[i] == (if q["sort"][i] == ',' then ' ' else q["sort"][i])
    ensures !Truthy(Param(q, "sort")) ==> r == "-createdAt"
  {
    if Truthy(Param(q, "sort")) then CommasToSpaces(q["sort"]) else "-createdAt"
  }

  /** `fields()`: the comma list as a space list, `-__v` when absent or empty. */
  function FieldsSpec(q: Query): (r: string)
    ensures Truthy(Param(q, "fields")) ==>
              && |r| == |q["fields"]|
              && forall i :: 0 <= i < |r| ==> r[i] == (if q["fields"][i] == ',' then ' ' else q["fields"][i])
    ensures !Truthy(Param(q, "fields")) ==> r == "-__v"
  {
    if Truthy(Param(q, "fields")) then CommasToSpaces(q["fields"]) else "-__v"
  }

  /** Turning commas into spaces loses nothing when the list had no spaces:
      turning the spaces back recovers it. */
  lemma CommasToSpacesInvertible(s: string)
    requires Excludes(s, ' ')
    ensures ReplaceChar(CommasToSpaces(s), ' ', ',') == s
  {
  }

  /** The sort and projection clauses give back the comma lists they were
      given, when those lists hold no spaces. */
  lemma ListParamsRecovered(q: Query)
    ensures Truthy(Param(q, "sort")) && Excludes(q["sort"], ' ') ==> ReplaceChar(SortSpec(q), ' ', ',') == q["sort"]
    ensures Truthy(Param(q, "fields")) && Excludes(q["fields"], ' ') ==> ReplaceChar(FieldsSpec(q), ' ', ',') == q["fields"]
  {
    if Truthy(Param(q, "sort")) && Excludes(q["sort"], ' ') {
      CommasToSpacesInvertible(q["sort"]);
    }
    if Truthy(Param(q, "fields")) && Excludes(q["fields"], ' ') {
      CommasToSpacesInvertible(q["fields"]);
    }
  }

  /** What `pagination()` adds to the query: a skip count (which may be `NaN`
      when `page` is not numeric) and a limit, each only when applied. */
  datatype Paging = Paging(skip: Option<Num>, limit: Option<nat>)

  /** The limit after `pagination()`'s first step: `undefined` unless the
      parameter is a non-empty string, and `undefined` again when negative. */
  function RawLimit(q: Query): Option<Num> {
    if Truthy(Param(q, "limit")) then
      var n := ToNumber(q["limit"]);
      if n.Val? && n.v < 0 then None else Some(n)
    else None
  }

  predicate PositiveLimit(q: Query) {
    var l := RawLimit(q);
    l.Some? && l.value.Val? && l.value.v > 0
  }

  function Paginate(q: Query): (r: Paging)
    // the limit is applied exactly when the parameter reads as a positive number
    ensures r.limit.Some? <==> Truthy(Param(q, "limit")) && ToNumber(q["limit"]).Val? && ToNumber(q["limit"]).v > 0
    ensures r.limit.Some? ==> r.limit.value == ToNumber(q["limit"]).v
    // a skip is applied only with a page and a positive limit
    ensures r.skip.Some? <==> Truthy(Param(q, "page")) && r.limit.Some?
    // a numeric page is clamped to at least 1, so the skip is never negative
    ensures r.skip.Some? && ToNumber(q["page"]).Val? ==>
              var p := ToNumber(q["page"]).v;
              r.skip.value == Val((if p < 1 then 0 else p - 1) * r.limit.value)
    ensures r.skip.Some? && r.skip.value.Val? ==> r.skip.value.v >= 0
  {
    var limit := RawLimit(q);
    var positive := PositiveLimit(q);
    var skip :=
      if Truthy(Param(q, "page")) && positive then
        var p := ToNumber(q["page"]);
        var page := if p.Val? && p.v < 1 then Val(1) else p;
        Some(if page.Val? then Val((page.v - 1) * limit.value.v) else NaN)
      else None;
    Paging(skip, if positive then Some(limit.value.v as nat) else None)
  }

  /** The `meta` block `countTotal()` returns. */
  datatype Meta = Meta(page: int, limit: Option<int>, total: nat, totalPage: nat)

  /** `Math.ceil(total / limit)` for a positive limit. */
  function CeilDiv(total: nat, limit: nat): (k: nat)
    requires limit > 0
    ensures k * limit >= total
    ensures k == 0 || (k - 1) * limit < total
  {
    (total + limit - 1) / limit
  }

  /** `countTotal()`: `page` is `Number(page) || 1` (not clamped), `limit` is
      `Number(limit) || undefined`, and `totalPage` is the page count for a
      positive limit and 1 otherwise. */
  function CountTotal(q: Query, total: nat): (m: Meta)
    ensures m.total == total
    ensures m.page == (if NumTruthy(NumberParam(q, "page")) then NumberParam(q, "page").v else 1)
    ensures m.limit.Some? <==> NumTruthy(NumberParam(q, "limit"))
    ensures m.limit.Some? ==> m.limit.value == NumberParam(q, "limit").v
    ensures m.limit.Some? && m.limit.value > 0 ==>
              m.totalPage * m.limit.value >= total && (m.totalPage == 0 || (m.totalPage - 1) * m.limit.value < total)
    ensures (m.limit.None? || m.limit.value <= 0) ==> m.totalPage == 1
  {
    var p := NumberParam(q, "page");
    var l := NumberParam(q, "limit");
    var limit := if NumTruthy(l) then Some(l.v) else None;
    var totalPage := if limit.Some? && limit.value > 0 then CeilDiv(total, limit.value) else 1;
    Meta(if NumTruthy(p) then p.v else 1, limit, total, totalPage)
  }

  /** The window of `docs` a paging plan selects (`skip` then `limit`),
      for a numeric skip. */
  function Window<T>(docs: seq<T>, p: Paging): (r: seq<T>)
    requires p.skip.None? || p.skip.value.Val?
    ensures p.limit.Some? ==> |r| <= p.limit.value
    ensures p.skip.None? && p.limit.None? ==> r == docs
  {
    var from := if p.skip.Some? then p.skip.value.v else 0;
    var rest := if from < 0 then docs else if from <= |docs| then docs[from..] else [];
    if p.limit.Some? && p.limit.value < |rest| then rest[..p.limit.value] else rest
  }

  /** With numeric, positive `page` and `limit`, the paging plan and the meta
      block agree: the window starts `(page - 1) * limit` documents in, and
      it is non-empty exactly when `page` is within `totalPage`. */
  lemma PagingAgreesWithMeta<T>(q: Query, docs: seq<T>)
    requires Truthy(Param(q, "page")) && Truthy(Param(q, "limit"))
    requires ToNumber(q["page"]).Val? && ToNumber(q["page"]).v >= 1
    requires ToNumber(q["limit"]).Val? && ToNumber(q["limit"]).v > 0
    ensures var p := Paginate(q);
            var m := CountTotal(q, |docs|);
            && p.skip == Some(Val((m.page - 1) * m.limit.value))
            && p.limit == Some(m.limit.value as nat)
            && (|Window(docs, p)| > 0 <==> m.page <= m.totalPage)
  {
    var p := Paginate(q);
    var m := CountTotal(q, |docs|);
    var page := m.page;
    var limit := m.limit.value;
    var skip := (page - 1) * limit;
    assert p.skip == Some(Val(skip));
    var k := m.totalPage;
    if page <= k {
      assert (page - 1) * limit <= (k - 1) * limit by {
        MulMonotone(page - 1, k - 1, limit);
      }
    } else {
      assert k <= page - 1;
      assert k * limit <= (page - 1) * limit by {
        MulMonotone(k, page - 1, limit);
      }
    }
  }

  lemma MulMonotone(a: int, b: int, c: nat)
    requires a <= b
    ensures a * c <= b * c
  {
  }
}
