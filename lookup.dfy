/**
 * `NotificationModel::getLookupResults`: the autocomplete lookup. The
 * repository's rows (language, id, name) are grouped into an array keyed by
 * language, each holding id => name, and the languages are then sorted.
 */
module Lookup {
  import opened Wrappers
  import opened PhpValues
  import opened PhpArrays

  /** `getPermissionBase()`. */
  const PermissionBase: string := "notification:notifications"

  /** One row of `getNotificationList` / `getMobileNotificationList`. */
  datatype Row = Row(language: string, id: int, name: string)

  /** The arguments handed to the repository's list query; `mobile` picks the mobile list. */
  datatype ListQuery = ListQuery(
    mobile: bool, filter: string, limit: int, start: int, viewOther: bool, notificationType: Option<Value>)

  /** language => (id => name), in PHP array order. */
  type Results = Assoc<string, Assoc<int, string>>

  /** `isset($options['notification_type']) ? $options['notification_type'] : null`. */
  function NotificationTypeOption(options: map<string, Value>): Option<Value>
  {
    if "notification_type" in options && options["notification_type"] != Null then Some(options["notification_type"])
    else None
  }

  /** The entry one row touches, keyed by that row's language; [] when the language is new. */
  function InnerFor(results: Results, language: string): Assoc<int, string>
  {
    match Get(results, language) case Some(m) => m case None => []
  }

  /** `$results[$row['language']][$row['id']] = $row['name']`. */
  function AddRow(results: Results, row: Row): Results
  {
    Put(results, row.language, Put(InnerFor(results, row.language), row.id, row.name))
  }

  /** The array the loop builds from `rows`, before sorting. */
  function Group(rows: seq<Row>): Results
  {
    if rows == [] then [] else AddRow(Group(rows[..|rows| - 1]), rows[|rows| - 1])
  }

  /** `$results[$language][$id] ?? null`. */
  function Find(results: Results, language: string, id: int): Option<string>
  {
    match Get(results, language)
    case None => None
    case Some(inner) => Get(inner, id)
  }

  /** The languages occurring in `rows`. */
  function Languages(rows: seq<Row>): set<string>
  {
    set r | r in rows :: r.language
  }

  /** The name carried by the last row for (language, id), if there is one. */
  function LastName(rows: seq<Row>, language: string, id: int): Option<string>
  {
    if rows == [] then None
    else if rows[|rows| - 1].language == language && rows[|rows| - 1].id == id then Some(rows[|rows| - 1].name)
    else LastName(rows[..|rows| - 1], language, id)
  }

  /** The ids of the rows for `language`, each once, in the order they first occur. */
  function FirstIds(rows: seq<Row>, language: string): seq<int>
  {
    if rows == [] then []
    else
      var ids := FirstIds(rows[..|rows| - 1], language);
      var last := rows[|rows| - 1];
      if last.language == language && last.id !in ids then ids + [last.id] else ids
  }

  /** No duplicate key at either level. */
  predicate WellFormed(results: Results)
  {
    UniqueKeys(results) && forall i :: 0 <= i < |results| ==> UniqueKeys(results[i].1)
  }

  /**
   * One row changes only its own language's entry: that entry gains or
   * overwrites the row's id, and a new language is appended at the end.
   */
  lemma AddRowEffect(results: Results, row: Row)
    ensures Get(AddRow(results, row), row.language) == Some(Put(InnerFor(results, row.language), row.id, row.name))
    ensures forall l :: l != row.language ==> Get(AddRow(results, row), l) == Get(results, l)
    ensures Keys(AddRow(results, row)) ==
              if row.language in Keys(results) then Keys(results) else Keys(results) + [row.language]
  {
    PutKeys(results, row.language, Put(InnerFor(results, row.language), row.id, row.name));
  }

  lemma AddRowWellFormed(results: Results, row: Row)
    requires WellFormed(results)
    ensures WellFormed(AddRow(results, row))
  {
    var inner := InnerFor(results, row.language);
    assert UniqueKeys(inner) by {
      if Get(results, row.language).Some? {
        var i :| 0 <= i < |results| && results[i] == (row.language, inner);
      }
    }
    var inner' := Put(inner, row.id, row.name);
    PutKeepsUnique(inner, row.id, row.name);
    var next := AddRow(results, row);
    PutKeepsUnique(results, row.language, inner');
    forall i | 0 <= i < |next|
      ensures UniqueKeys(next[i].1)
    {
      assert Keys(next)[i] == next[i].0;
      assert Get(next, next[i].0) == Some(next[i].1);
      if next[i].0 != row.language {
        var j :| 0 <= j < |results| && results[j] == (next[i].0, next[i].1);
      }
    }
  }

  /** Grouping never creates a duplicate language or a duplicate id within a language. */
  lemma {:induction false} GroupWellFormed(rows: seq<Row>)
    ensures WellFormed(Group(rows))
  {
    if rows != [] {
      GroupWellFormed(rows[..|rows| - 1]);
      AddRowWellFormed(Group(rows[..|rows| - 1]), rows[|rows| - 1]);
    }
  }

  /** `Languages` of a row appended. */
  lemma LanguagesSnoc(rows: seq<Row>)
    requires rows != []
    ensures Languages(rows) == Languages(rows[..|rows| - 1]) + {rows[|rows| - 1].language}
  {
    assert rows == rows[..|rows| - 1] + [rows[|rows| - 1]];
    assert forall r :: r in rows <==> r in rows[..|rows| - 1] || r == rows[|rows| - 1];
  }

  /** One row adds its language to the array's languages, and nothing else. */
  lemma AddRowLanguages(results: Results, langs: set<string>, row: Row)
    requires forall l :: l in Keys(results) <==> l in langs
    ensures forall l :: l in Keys(AddRow(results, row)) <==> l in langs + {row.language}
  {
    AddRowEffect(results, row);
  }

  /** The grouped array's languages are exactly the rows' languages. */
  lemma {:induction false} GroupLanguages(rows: seq<Row>)
    ensures forall l :: l in Keys(Group(rows)) <==> l in Languages(rows)
  {
    if rows != [] {
      var init, row := rows[..|rows| - 1], rows[|rows| - 1];
      GroupLanguages(init);
      AddRowLanguages(Group(init), Languages(init), row);
      assert Group(rows) == AddRow(Group(init), row);
      LanguagesSnoc(rows);
    }
  }

  /** The effect of one row on `Find`: its (language, id) now names it, every other pair is unchanged. */
  lemma AddRowFind(results: Results, row: Row)
    ensures forall l, id :: Find(AddRow(results, row), l, id) ==
              if l == row.language && id == row.id then Some(row.name) else Find(results, l, id)
  {
    AddRowEffect(results, row);
  }

  /** Each (language, id) maps to the name of the last row carrying it; a later row overwrites. */
  lemma {:induction false} GroupFind(rows: seq<Row>)
    ensures forall l, id :: Find(Group(rows), l, id) == LastName(rows, l, id)
  {
    if rows != [] {
      var init := rows[..|rows| - 1];
      GroupFind(init);
      AddRowFind(Group(init), rows[|rows| - 1]);
    }
  }

  /** Assigning an id in a language's entry: a new id goes last, a known one keeps its place. */
  lemma InnerOrderStep(inner: Assoc<int, string>, ids: seq<int>, id: int, name: string)
    requires Keys(inner) == ids
    ensures Keys(Put(inner, id, name)) == if id !in ids then ids + [id] else ids
  {
    PutKeys(inner, id, name);
  }

  /** The effect of the last row on a language's id order: a new id is appended, a known one stays put. */
  lemma AddRowOrder(results: Results, rows: seq<Row>)
    requires rows != []
    requires forall l :: l in Keys(results) <==> l in Languages(rows[..|rows| - 1])
    requires forall l :: l in Keys(results) ==> Keys(Get(results, l).value) == FirstIds(rows[..|rows| - 1], l)
    ensures forall l :: l in Keys(AddRow(results, rows[|rows| - 1])) ==>
              Keys(Get(AddRow(results, rows[|rows| - 1]), l).value) == FirstIds(rows, l)
  {
    var init, row := rows[..|rows| - 1], rows[|rows| - 1];
    var next := AddRow(results, row);
    AddRowEffect(results, row);
    forall l | l in Keys(next)
      ensures Keys(Get(next, l).value) == FirstIds(rows, l)
    {
      if l != row.language {
        assert l in Keys(results);
      } else {
        RowLanguageOrder(results, init, row);
      }
    }
  }

  /** The row's own language: its entry's ids are the first-seen ids once the row is counted. */
  lemma RowLanguageOrder(results: Results, init: seq<Row>, row: Row)
    requires row.language in Keys(results) <==> row.language in Languages(init)
    requires row.language in Keys(results) ==> Keys(Get(results, row.language).value) == FirstIds(init, row.language)
    ensures Keys(Put(InnerFor(results, row.language), row.id, row.name)) ==
              if row.id !in FirstIds(init, row.language) then FirstIds(init, row.language) + [row.id]
              else FirstIds(init, row.language)
  {
    if row.language !in Keys(results) {
      FirstIdsOnlyOfLanguage(init, row.language);
    }
    InnerOrderStep(InnerFor(results, row.language), FirstIds(init, row.language), row.id, row.name);
  }

  /** Each language's ids keep the order in which they first occur among the rows. */
  lemma {:induction false} GroupOrder(rows: seq<Row>)
    ensures forall l :: l in Keys(Group(rows)) ==> Keys(Get(Group(rows), l).value) == FirstIds(rows, l)
  {
    if rows != [] {
      var init := rows[..|rows| - 1];
      GroupOrder(init);
      GroupLanguages(init);
      AddRowOrder(Group(init), rows);
    }
  }

  /** A language that occurs in no row has no ids. */
  lemma {:induction false} FirstIdsOnlyOfLanguage(rows: seq<Row>, language: string)
    requires language !in Languages(rows)
    ensures FirstIds(rows, language) == []
  {
    if rows != [] {
      var init := rows[..|rows| - 1];
      assert Languages(init) <= Languages(rows) by {
        assert forall r :: r in init ==> r in rows;
      }
      FirstIdsOnlyOfLanguage(init, language);
    }
  }

  /** What `getLookupResults` promises of its answer for the rows `rows`. */
  ghost predicate LookupAnswers(results: Results, rows: seq<Row>)
  {
    && SortedKeys(results) && WellFormed(results)
    && (forall l :: l in Keys(results) <==> l in Languages(rows))
    && (forall l, id :: Find(results, l, id) == LastName(rows, l, id))
    && (forall l :: l in Keys(results) ==> Keys(Get(results, l).value) == FirstIds(rows, l))
  }

  /** Grouping then `ksort` answers the lookup: sorted languages, last name wins, first-seen id order. */
  lemma SortedGroupAnswers(rows: seq<Row>)
    ensures LookupAnswers(KSort(Group(rows)), rows)
  {
    var grouped := Group(rows);
    GroupWellFormed(rows);
    GroupLanguages(rows);
    GroupFind(rows);
    GroupOrder(rows);
    KSortSpec(grouped);
    var results := KSort(grouped);
    forall i | 0 <= i < |results|
      ensures UniqueKeys(results[i].1)
    {
      assert Get(results, results[i].0) == Some(results[i].1);
      assert Get(grouped, results[i].0) == Some(results[i].1);
      var j :| 0 <= j < |grouped| && grouped[j] == results[i];
    }
    forall l, id
      ensures Find(results, l, id) == LastName(rows, l, id)
    {
      assert Get(results, l) == Get(grouped, l);
    }
  }

  /**
   * `getLookupResults($type, $filter, $limit, $start, $options)`. `granted` are
   * the permissions the current user holds; `repository` answers a list query
   * with its rows. Any type other than the two notification lists yields [].
   */
  method GetLookupResults(
    lookupType: string, filter: string, limit: int, start: int, options: map<string, Value>,
    granted: set<string>, repository: ListQuery -> seq<Row>)
    returns (query: Option<ListQuery>, results: Results)
    ensures lookupType !in {"notification", "mobile_notification"} ==> query.None? && results == []
    ensures lookupType in {"notification", "mobile_notification"} ==>
              query == Some(ListQuery(lookupType == "mobile_notification", filter, limit, start,
                                      PermissionBase + ":viewother" in granted, NotificationTypeOption(options)))
    ensures query.Some? ==> LookupAnswers(results, repository(query.value))
  {
    results := [];
    if lookupType == "notification" || lookupType == "mobile_notification" {
      var q := ListQuery(lookupType == "mobile_notification", filter, limit, start,
                         PermissionBase + ":viewother" in granted, NotificationTypeOption(options));
      query := Some(q);
      var rows := repository(q);
      for i := 0 to |rows|
        invariant results == Group(rows[..i])
      {
        results := AddRow(results, rows[i]);
        assert rows[..i + 1][..i] == rows[..i];
      }
      assert rows[..|rows|] == rows;
      results := KSort(results);
      assert LookupAnswers(results, rows) by {
        SortedGroupAnswers(rows);
      }
    } else {
      query := None;
    }
  }
}
