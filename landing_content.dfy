/**
 * The landing-content hook: a map from section key (`hero`, `about`, `services`,
 * `contact`, or whatever key a row carries) to that section's content, built from the
 * rows of the `landing_content` table and updated one section at a time once the
 * backend has accepted the change. The backend's answers are inputs.
 */
module LandingContent {
  import opened Common
  import opened JsonDoc

  /** A row of the table: its `section_key` and its `content` (None is SQL null). */
  datatype Row = Row(sectionKey: string, content: Option<Json>)

  /** What a `catch` receives: an `Error` with its message, or any other thrown value. */
  datatype Thrown = ErrorObject(message: string) | OtherValue

  /** The answer to the select: the rows (possibly null), or an error that the hook throws. */
  datatype FetchResult = FetchOk(data: Option<seq<Row>>) | FetchError(thrown: Thrown)

  /** The answer to the update of one row. */
  datatype UpdateResult = UpdateOk | UpdateError(thrown: Thrown)

  /** `item.content && typeof item.content === 'object'`: objects and arrays count; null and strings do not. */
  predicate Counts(row: Row)
  {
    row.content.Some? && !row.content.value.JStr?
  }

  /** The content map `forEach` leaves after visiting `rows` in order. */
  function Sections(rows: seq<Row>): (m: map<string, Json>)
    ensures forall k | k in m :: !m[k].JStr?
    ensures forall k | k in m :: exists i | 0 <= i < |rows| :: rows[i].sectionKey == k && rows[i].content == Some(m[k])
    decreases |rows|
  {
    if rows == [] then map[]
    else
      var init := rows[..|rows| - 1];
      var m := Sections(init);
      var last := rows[|rows| - 1];
      assert forall i | 0 <= i < |init| :: rows[i] == init[i];
      if Counts(last) then m[last.sectionKey := last.content.value] else m
  }

  /** `err instanceof Error ? err.message : fallback` */
  function Message(thrown: Thrown, fallback: string): string
  {
    match thrown
    case ErrorObject(message) => message
    case OtherValue => fallback
  }

  /** A section is in the map exactly when some row with that key counts. */
  lemma {:induction false} SectionsKeys(rows: seq<Row>, key: string)
    ensures key in Sections(rows) <==> exists i | 0 <= i < |rows| :: rows[i].sectionKey == key && Counts(rows[i])
    decreases |rows|
  {
    if rows != [] {
      var init := rows[..|rows| - 1];
      SectionsKeys(init, key);
      assert forall i | 0 <= i < |init| :: init[i] == rows[i];
    }
  }

  /** When several rows carry the same key, the last one that counts wins. */
  lemma {:induction false} LaterRowWins(rows: seq<Row>, i: nat)
    requires i < |rows| && Counts(rows[i])
    requires forall j | i < j < |rows| :: rows[j].sectionKey != rows[i].sectionKey || !Counts(rows[j])
    ensures rows[i].sectionKey in Sections(rows) && Sections(rows)[rows[i].sectionKey] == rows[i].content.value
    decreases |rows|
  {
    if i < |rows| - 1 {
      var init := rows[..|rows| - 1];
      assert forall j | 0 <= j < |init| :: init[j] == rows[j];
      LaterRowWins(init, i);
    }
  }

  /** `data?.forEach(item => { if (…) contentMap[item.section_key] = item.content; })` */
  method CollectSections(data: Option<seq<Row>>) returns (contentMap: map<string, Json>)
    ensures contentMap == if data.Some? then Sections(data.value) else map[]
  {
    contentMap := map[];
    if data.Some? {
      var rows := data.value;
      var i := 0;
      while i < |rows|
        invariant 0 <= i <= |rows|
        invariant contentMap == Sections(rows[..i])
      {
        assert rows[..i + 1][..i] == rows[..i];
        var item := rows[i];
        if item.content.Some? && !item.content.value.JStr? {
          contentMap := contentMap[item.sectionKey := item.content.value];
        }
        i := i + 1;
      }
      assert rows[..|rows|] == rows;
    }
  }

  /** The hook's three state cells. */
  class LandingContentHook {
    var content: map<string, Json>
    var loading: bool
    var error: Option<string>

    /** The first render: no content, loading, no error. */
    constructor ()
      ensures content == map[] && loading && error == None
    {
      content := map[];
      loading := true;
      error := None;
    }

    /**
     * `fetchContent`: on success the content becomes the rows' section map (an earlier
     * error message stays); on failure the content is kept and the message recorded.
     * Loading is off afterwards either way.
     */
    method FetchContent(result: FetchResult)
      modifies this
      ensures !loading
      ensures result.FetchOk? ==>
        content == (if result.data.Some? then Sections(result.data.value) else map[]) && error == old(error)
      ensures result.FetchError? ==>
        content == old(content) && error == Some(Message(result.thrown, "Failed to fetch content"))
    {
      loading := true;
      match result {
        case FetchOk(data) =>
          var contentMap := CollectSections(data);
          content := contentMap;
        case FetchError(thrown) =>
          error := Some(Message(thrown, "Failed to fetch content"));
      }
      loading := false;
    }

    /**
     * `updateContent(sectionKey, newContent)`: the local map changes only after the
     * backend reports success, and then only in that section; a failure is recorded
     * and thrown again to the caller.
     */
    method UpdateContent(sectionKey: string, newContent: Json, result: UpdateResult) returns (rethrown: Option<Thrown>)
      modifies this
      ensures loading == old(loading)
      ensures result.UpdateOk? ==>
        rethrown.None? && content == old(content)[sectionKey := newContent] && error == old(error)
      ensures result.UpdateError? ==>
        rethrown == Some(result.thrown) && content == old(content)
        && error == Some(Message(result.thrown, "Failed to update content"))
    {
      match result
      case UpdateOk =>
        content := content[sectionKey := newContent];
        rethrown := None;
      case UpdateError(thrown) =>
        error := Some(Message(thrown, "Failed to update content"));
        rethrown := Some(thrown);
    }
  }
}
