/**
 * The working-hours editor of the admin panel: one row per day of the week, each with
 * an English and a French input. An input shows `formData.workingHours?.[locale]?.[day] || ''`
 * and reports edits as the dotted path `workingHours.<locale>.<day>`; the editor itself
 * is a function of the draft and never changes it (every write goes through the
 * panel's dotted-path writer, `AdminPanel.AdminPanel.HandleInputChange`).
 */
module WorkingHours {
  import opened Common
  import opened JsonDoc
  import opened BrandSchema
  import Text

  datatype DayRow = DayRow(key: string, caption: string)

  /** The seven days, Monday first. */
  const Days: seq<DayRow> := [
    DayRow("monday", "Monday"), DayRow("tuesday", "Tuesday"), DayRow("wednesday", "Wednesday"),
    DayRow("thursday", "Thursday"), DayRow("friday", "Friday"), DayRow("saturday", "Saturday"),
    DayRow("sunday", "Sunday")]

  /** What one row of the editor renders and where its two inputs write. */
  datatype Row = Row(caption: string, en: Json, fr: Json, enPath: string, frPath: string)

  /** The template string `workingHours.${locale}.${day}`: it splits back into the three keys the writer walks. */
  function EditPath(locale: string, day: string): (path: string)
    ensures '.' !in locale && '.' !in day ==> Text.Split(path, '.') == ["workingHours", locale, day]
  {
    var path := "workingHours." + locale + "." + day;
    var parts := ["workingHours", locale, day];
    assert Text.Join(parts, '.') == path by {
      assert Text.Join(parts[1..], '.') == locale + "." + day by {
        assert Text.Join(parts[2..], '.') == day;
      }
    }
    assert '.' !in locale && '.' !in day ==> Text.Split(path, '.') == parts by {
      if '.' !in locale && '.' !in day {
        Text.SplitJoin(parts, '.');
      }
    }
    path
  }

  /** `x || ''` on what an optional-chaining read yields: undefined and the empty string are falsy. */
  function OrEmpty(r: Option<Json>): Json
  {
    if r.Some? && r.value != JStr("") then r.value else JStr("")
  }

  /** The value an input shows for `locale` and `day`: the stored hours, or `''` when they are missing. */
  function Shown(draft: Json, locale: string, day: string): (shown: Json)
    ensures var stored := Read(Some(draft), ["workingHours", locale, day]);
      && (stored.None? ==> shown == JStr(""))
      && (shown == JStr("") || stored == Some(shown))
      && (stored.Some? && stored.value.JStr? ==> shown == stored.value)
  {
    OrEmpty(Read(Some(draft), ["workingHours", locale, day]))
  }

  /** The rendered rows, in the order of `Days`. */
  function Rows(draft: Json): (rows: seq<Row>)
    ensures |rows| == |Days| == 7
    ensures forall i | 0 <= i < 7 :: rows[i].caption == Days[i].caption
    ensures forall i | 0 <= i < 7 :: rows[i].enPath == EditPath("en", Days[i].key) && rows[i].frPath == EditPath("fr", Days[i].key)
    ensures forall i | 0 <= i < 7 :: rows[i].en == Shown(draft, "en", Days[i].key) && rows[i].fr == Shown(draft, "fr", Days[i].key)
  {
    seq(|Days|, i requires 0 <= i < |Days| =>
      var d := Days[i];
      Row(d.caption, Shown(draft, "en", d.key), Shown(draft, "fr", d.key), EditPath("en", d.key), EditPath("fr", d.key)))
  }

  /** The day keys are `monday` to `sunday`, in that order, with no repetition. */
  lemma DayKeys()
    ensures seq(|Days|, i requires 0 <= i < |Days| => Days[i].key) ==
      ["monday", "tuesday", "wednesday", "thursday", "friday", "saturday", "sunday"]
    ensures forall i, j | 0 <= i < j < |Days| :: Days[i].key != Days[j].key
    ensures forall i | 0 <= i < |Days| :: '.' !in Days[i].key
  {
  }

  /** The fourteen inputs write fourteen different paths. */
  lemma EditPathsDistinct(l1: string, l2: string, i: nat, j: nat)
    requires l1 in {"en", "fr"} && l2 in {"en", "fr"} && i < 7 && j < 7
    requires EditPath(l1, Days[i].key) == EditPath(l2, Days[j].key)
    ensures l1 == l2 && i == j
  {
    DayKeys();
  }

  /** Editing an input and rendering again shows the typed text. */
  lemma EditShows(draft: Json, locale: string, day: string, v: string)
    requires '.' !in locale && '.' !in day
    requires Assign(Some(draft), Text.Split(EditPath(locale, day), '.'), v).Success?
    ensures Shown(Assign(Some(draft), Text.Split(EditPath(locale, day), '.'), v).value, locale, day) == JStr(v)
  {
    AssignReadBack(draft, ["workingHours", locale, day], v);
  }

  /** Editing one input leaves what every other input shows unchanged. */
  lemma EditKeepsOthers(draft: Json, locale: string, day: string, v: string, other: string, otherDay: string)
    requires '.' !in locale && '.' !in day
    requires (other, otherDay) != (locale, day)
    requires Assign(Some(draft), Text.Split(EditPath(locale, day), '.'), v).Success?
    ensures Shown(Assign(Some(draft), Text.Split(EditPath(locale, day), '.'), v).value, other, otherDay) ==
      Shown(draft, other, otherDay)
  {
    var keys := ["workingHours", locale, day];
    var q := ["workingHours", other, otherDay];
    assert !(q <= keys) && !(keys <= q) by {
      if other != locale { assert q[1] != keys[1]; } else { assert q[2] != keys[2]; }
    }
    AssignKeepsOtherPaths(draft, keys, v, q);
  }

  /**
   * Without a `workingHours` member every edit throws when it reads the locale of
   * undefined; with a table that lacks the locale it throws when it sets the day.
   */
  lemma EditWithoutTable(draft: Json, locale: string, day: string, v: string)
    requires '.' !in locale && '.' !in day
    ensures Member(draft, "workingHours").None? ==>
      Assign(Some(draft), Text.Split(EditPath(locale, day), '.'), v) == Failure(CannotRead(locale))
    ensures Member(draft, "workingHours").Some? && Member(Member(draft, "workingHours").value, locale).None? ==>
      Assign(Some(draft), Text.Split(EditPath(locale, day), '.'), v) == Failure(CannotSet(day))
  {
    var keys := ["workingHours", locale, day];
    assert keys[1..] == [locale, day] && keys[1..][1..] == [day];
    var table := Member(draft, "workingHours");
    if table.Some? && Member(table.value, locale).None? {
      assert Assign(Some(table.value), [locale, day], v) == Failure(CannotSet(day));
    }
  }

  /**
   * On the document of typed settings an input shows the stored hours, and `''`
   * when there is no table, no entry for the locale or the day, or an empty entry.
   */
  lemma ShownFromSettings(s: BrandSettings, locale: string, day: string)
    ensures var h := s.workingHours;
      Shown(Encode(s), locale, day) ==
        if h.Some? && locale in h.value && day in h.value[locale] then JStr(h.value[locale][day]) else JStr("")
  {
    EncodeMembers(s);
    var path := ["workingHours", locale, day];
    assert path[1..] == [locale, day] && path[1..][1..] == [day] && path[1..][1..][1..] == [];
    if s.workingHours.Some? {
      var h := s.workingHours.value;
      var t := EncodeHours(h);
      assert Read(Some(Encode(s)), path) == Read(Member(t, locale), [day]);
      if locale in h {
        var row := JObject(map d | d in h[locale] :: JStr(h[locale][d]));
        assert Member(t, locale) == Some(row);
        assert Read(Some(row), [day]) == Member(row, day);
      } else {
        assert Member(t, locale) == None;
      }
    } else {
      assert Read(Some(Encode(s)), path) == Read(None, path[1..]);
      ReadUndefined(path[1..]);
    }
  }
}
