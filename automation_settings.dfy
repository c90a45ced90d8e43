/** The per-job settings namespace of src/app/api/automation/settings/route.ts.
    Every setting of job `j` is a row of the settings table whose key is `j_` followed
    by the setting's name; GET collects a job's rows by key prefix and POST upserts
    one row per posted setting.

    The session check is a boolean, `JSON.parse` and `JSON.stringify` are function
    parameters, and the clock is a tick `now`. */
module AutomationSettings {
  import opened Common

  // ---------------------------------------------------------------------------
  // JSON values as the route sees them
  // ---------------------------------------------------------------------------

  /** A JSON value; an object's members are listed in enumeration order. */
  datatype Json =
    | JNull
    | JBool(b: bool)
    | JNumber(n: int)
    | JString(s: string)
    | JArray(items: seq<Json>)
    | JObject(members: seq<(string, Json)>)

  /** JavaScript truthiness of a property that may be undefined (None). */
  predicate Truthy(v: Option<Json>) {
    match v
    case None => false
    case Some(JNull) => false
    case Some(JBool(b)) => b
    case Some(JNumber(n)) => n != 0
    case Some(JString(s)) => s != ""
    case Some(_) => true
  }

  /** `typeof v === 'object'` (which includes null). */
  predicate IsObject(v: Option<Json>) {
    v.Some? && (v.value.JNull? || v.value.JArray? || v.value.JObject?)
  }

  function JoinWithCommas(parts: seq<string>): string {
    if parts == [] then ""
    else if |parts| == 1 then parts[0]
    else parts[0] + "," + JoinWithCommas(parts[1..])
  }

  /** Converting `v` to a string throws a TypeError. A parsed object with its own
      `toString` member holds a value that is not callable there, and the inherited
      `valueOf` returns the object itself, so no primitive is found; an array throws
      when one of its items does, since `join` converts each item in the same way. */
  predicate ToStringThrows(v: Json)
    decreases v
  {
    match v
    case JObject(members) => exists i :: 0 <= i < |members| && members[i].0 == "toString"
    case JArray(items) => exists i :: 0 <= i < |items| && ToStringThrows(items[i])
    case _ => false
  }

  /** `String(v)`, as used by the template literal `${jobName}`, or None when the
      conversion throws. */
  function JsText(v: Json): (r: Option<string>)
    ensures r.None? <==> ToStringThrows(v)
    ensures v.JString? ==> r == Some(v.s)
    ensures v.JObject? && r.Some? ==> r.value == "[object Object]"
    decreases v
  {
    match v
    case JNull => Some("null")
    case JBool(b) => Some(if b then "true" else "false")
    case JNumber(n) => Some(IntToString(n))
    case JString(s) => Some(s)
    case JObject(members) =>
      if exists i :: 0 <= i < |members| && members[i].0 == "toString" then None
      else Some("[object Object]")
    case JArray(items) =>
      var parts := seq(|items|, i requires 0 <= i < |items| =>
        if items[i].JNull? then Some("") else JsText(items[i]));
      assert forall i :: 0 <= i < |items| ==> (parts[i].None? <==> ToStringThrows(items[i]));
      if exists i :: 0 <= i < |parts| && parts[i].None? then None
      else Some(JoinWithCommas(seq(|parts|, i requires 0 <= i < |parts| && parts[i].Some? => parts[i].value)))
  }

  /** `body.name`: the last member of that name of an object (the one `JSON.parse`
      keeps), and undefined on any other value. */
  function Member(body: Json, name: string): (r: Option<Json>)
    ensures r.Some? ==> body.JObject? && exists i ::
      && 0 <= i < |body.members| && body.members[i] == (name, r.value)
      && forall j :: i < j < |body.members| ==> body.members[j].0 != name
    ensures r.None? <==> !body.JObject? || forall i :: 0 <= i < |body.members| ==> body.members[i].0 != name
  {
    match body
    case JObject(members) => LastMember(members, name)
    case _ => None
  }

  function LastMember(members: seq<(string, Json)>, name: string): (r: Option<Json>)
    ensures r.Some? ==> exists i ::
      && 0 <= i < |members| && members[i] == (name, r.value)
      && forall j :: i < j < |members| ==> members[j].0 != name
    ensures r.None? ==> forall i :: 0 <= i < |members| ==> members[i].0 != name
  {
    if members == [] then None
    else if members[|members| - 1].0 == name then Some(members[|members| - 1].1)
    else
      var r := LastMember(members[..|members| - 1], name);
      assert forall i :: 0 <= i < |members| - 1 ==> members[..|members| - 1][i] == members[i];
      r
  }

  /** `Object.entries(settings)` for an object or an array. */
  function Entries(settings: Json): (r: seq<(string, Json)>)
    ensures settings.JObject? ==> r == settings.members
    ensures settings.JArray? ==> |r| == |settings.items|
    ensures settings.JArray? ==> forall i :: 0 <= i < |r| ==> r[i] == (NatToString(i), settings.items[i])
  {
    match settings
    case JObject(members) => members
    case JArray(items) => seq(|items|, i requires 0 <= i < |items| => (NatToString(i), items[i]))
    case _ => []
  }

  // ---------------------------------------------------------------------------
  // The settings table
  // ---------------------------------------------------------------------------

  datatype SettingRow = SettingRow(key: string, value: string, updatedAt: Option<nat>)

  predicate HasKey(rows: seq<SettingRow>, key: string) {
    exists i :: 0 <= i < |rows| && rows[i].key == key
  }

  predicate NoDuplicateKeys(rows: seq<SettingRow>) {
    forall i, j :: 0 <= i < j < |rows| ==> rows[i].key != rows[j].key
  }

  /** The value stored under `key`: that of the last row with the key. */
  function Lookup(rows: seq<SettingRow>, key: string): (r: Option<string>)
    ensures r.Some? <==> HasKey(rows, key)
    ensures r.Some? ==> exists i ::
      && 0 <= i < |rows| && rows[i].key == key && rows[i].value == r.value
      && forall j :: i < j < |rows| ==> rows[j].key != key
  {
    if rows == [] then None
    else if rows[|rows| - 1].key == key then Some(rows[|rows| - 1].value)
    else
      var init := rows[..|rows| - 1];
      var r := Lookup(init, key);
      assert forall i :: 0 <= i < |init| ==> init[i] == rows[i];
      assert HasKey(rows, key) ==> HasKey(init, key) by {
        if HasKey(rows, key) {
          var i :| 0 <= i < |rows| && rows[i].key == key;
          assert i < |init|;
        }
      }
      r
  }

  // ---------------------------------------------------------------------------
  // GET (src/app/api/automation/settings/route.ts:9-47)
  // ---------------------------------------------------------------------------

  /** `${jobName}_` */
  function Prefix(jobName: string): string {
    jobName + "_"
  }

  /** A stored value as GET returns it: parsed, or the raw string when it does not
      parse. */
  function Decode(value: string, parse: string -> Option<Json>): (v: Json)
    ensures parse(value).Some? ==> v == parse(value).value
    ensures parse(value).None? ==> v == JString(value)
  {
    match parse(value)
    case Some(v) => v
    case None => JString(value)
  }

  /** `key.replace(prefix, '')` on a key that starts with the prefix. */
  function Strip(key: string, prefix: string): (name: string)
    requires StartsWith(key, prefix)
    ensures key == prefix + name
  {
    assert key == prefix + key[|prefix|..];
    ReplacePrefix(prefix, key[|prefix|..]);
    ReplaceFirst(key, prefix, "")
  }

  /** The filter and reduce over the rows: later rows overwrite earlier ones. */
  function Collect(rows: seq<SettingRow>, prefix: string, parse: string -> Option<Json>): (m: map<string, Json>)
    ensures forall name :: name in m <==> HasKey(rows, prefix + name)
    ensures forall name :: name in m ==> m[name] == Decode(Lookup(rows, prefix + name).value, parse)
  {
    if rows == [] then map[]
    else
      var init := rows[..|rows| - 1];
      var last := rows[|rows| - 1];
      var m := Collect(init, prefix, parse);
      assert forall key :: HasKey(rows, key) <==> HasKey(init, key) || last.key == key by {
        forall key ensures HasKey(rows, key) <==> HasKey(init, key) || last.key == key {
          if HasKey(init, key) {
            var i :| 0 <= i < |init| && init[i].key == key;
            assert rows[i] == init[i];
          }
          if HasKey(rows, key) && last.key != key {
            var i :| 0 <= i < |rows| && rows[i].key == key;
            assert init[i] == rows[i];
          }
        }
      }
      if StartsWith(last.key, prefix) then m[Strip(last.key, prefix) := Decode(last.value, parse)]
      else m
  }

  datatype GetResponse = GetUnauthorized | GetBadRequest | Settings(values: map<string, Json>)

  /** GET /api/automation/settings?job=… */
  function Get(hasSession: bool, job: Option<string>, rows: seq<SettingRow>, parse: string -> Option<Json>): (r: GetResponse)
    ensures !hasSession <==> r.GetUnauthorized?
    ensures r.GetBadRequest? <==> hasSession && (job.None? || job.value == "")
    ensures r.Settings? ==> forall name ::
      && (name in r.values <==> HasKey(rows, Prefix(job.value) + name))
      && (name in r.values ==> r.values[name] == Decode(Lookup(rows, Prefix(job.value) + name).value, parse))
  {
    if !hasSession then GetUnauthorized
    else if job.None? || job.value == "" then GetBadRequest
    else Settings(Collect(rows, Prefix(job.value), parse))
  }

  // ---------------------------------------------------------------------------
  // POST (src/app/api/automation/settings/route.ts:51-101)
  // ---------------------------------------------------------------------------

  /** `update(settings).set({ value, updatedAt: now }).where(key = key)`. */
  function SetWhere(rows: seq<SettingRow>, key: string, value: string, now: nat): (r: seq<SettingRow>)
    ensures |r| == |rows|
    ensures forall i :: 0 <= i < |r| ==>
      r[i] == (if rows[i].key == key then SettingRow(key, value, Some(now)) else rows[i])
  {
    seq(|rows|, i requires 0 <= i < |rows| =>
      if rows[i].key == key then SettingRow(key, value, Some(now)) else rows[i])
  }

  /** One iteration of the POST loop: update the row if the key is stored, insert
      it otherwise. */
  function Upsert(rows: seq<SettingRow>, key: string, value: string, now: nat): seq<SettingRow> {
    if HasKey(rows, key) then SetWhere(rows, key, value, now)
    else rows + [SettingRow(key, value, None)]
  }

  /** An upsert stores the value under its key, keeps one row per key, and leaves
      every other key as it was. */
  lemma UpsertStores(rows: seq<SettingRow>, key: string, value: string, now: nat)
    ensures var r := Upsert(rows, key, value, now);
      && Lookup(r, key) == Some(value)
      && (NoDuplicateKeys(rows) ==> NoDuplicateKeys(r))
      && (forall other :: other != key ==> Lookup(r, other) == Lookup(rows, other))
      && |r| == if HasKey(rows, key) then |rows| else |rows| + 1
  {
    var r := Upsert(rows, key, value, now);
    if HasKey(rows, key) {
      SetWhereFound(rows, key, value, now);
      forall other | other != key ensures Lookup(r, other) == Lookup(rows, other) {
        SetWhereElsewhere(rows, key, value, now, other);
      }
    } else {
      assert r[..|rows|] == rows;
      forall other | other != key ensures Lookup(r, other) == Lookup(rows, other) {
      }
      if NoDuplicateKeys(rows) {
        forall i, j | 0 <= i < j < |r| ensures r[i].key != r[j].key {
          if j == |rows| {
            assert rows[i].key != key;
          }
        }
      }
    }
  }

  lemma {:induction false} SetWhereFound(rows: seq<SettingRow>, key: string, value: string, now: nat)
    requires HasKey(rows, key)
    ensures Lookup(SetWhere(rows, key, value, now), key) == Some(value)
    decreases |rows|
  {
    var init := rows[..|rows| - 1];
    if rows[|rows| - 1].key != key {
      assert SetWhere(rows, key, value, now)[..|rows| - 1] == SetWhere(init, key, value, now);
      assert HasKey(init, key) by {
        var i :| 0 <= i < |rows| && rows[i].key == key;
        assert init[i] == rows[i];
      }
      SetWhereFound(init, key, value, now);
    }
  }

  lemma {:induction false} SetWhereElsewhere(rows: seq<SettingRow>, key: string, value: string, now: nat, other: string)
    requires other != key
    ensures Lookup(SetWhere(rows, key, value, now), other) == Lookup(rows, other)
    decreases |rows|
  {
    if rows != [] {
      var init := rows[..|rows| - 1];
      assert SetWhere(rows, key, value, now)[..|rows| - 1] == SetWhere(init, key, value, now);
      SetWhereElsewhere(init, key, value, now, other);
    }
  }

  /** Some entry is saved under `key`. */
  predicate Names(prefix: string, entries: seq<(string, Json)>, key: string) {
    exists i :: 0 <= i < |entries| && prefix + entries[i].0 == key
  }

  /** The loop at src/app/api/automation/settings/route.ts:70-94 over the entries. */
  function SaveAll(rows: seq<SettingRow>, prefix: string, entries: seq<(string, Json)>,
                   stringify: Json -> string, now: nat): seq<SettingRow>
  {
    if entries == [] then rows
    else
      var last := entries[|entries| - 1];
      Upsert(SaveAll(rows, prefix, entries[..|entries| - 1], stringify, now), prefix + last.0, stringify(last.1), now)
  }

  /** Saving one more entry upserts its prefixed key with its stringified value. */
  lemma SaveAllStep(rows: seq<SettingRow>, prefix: string, entries: seq<(string, Json)>, i: nat,
                    stringify: Json -> string, now: nat)
    requires i < |entries|
    ensures SaveAll(rows, prefix, entries[..i + 1], stringify, now)
         == Upsert(SaveAll(rows, prefix, entries[..i], stringify, now), prefix + entries[i].0, stringify(entries[i].1), now)
  {
    assert entries[..i + 1][..i] == entries[..i];
    assert entries[..i + 1][i] == entries[i];
  }

  /** Saving keeps one row per key and leaves every key no entry names as it was. */
  lemma {:induction false} SaveAllKeepsOthers(rows: seq<SettingRow>, prefix: string, entries: seq<(string, Json)>,
                                             stringify: Json -> string, now: nat)
    ensures NoDuplicateKeys(rows) ==> NoDuplicateKeys(SaveAll(rows, prefix, entries, stringify, now))
    ensures forall key :: !Names(prefix, entries, key) ==>
      Lookup(SaveAll(rows, prefix, entries, stringify, now), key) == Lookup(rows, key)
    decreases |entries|
  {
    if entries != [] {
      var init := entries[..|entries| - 1];
      var last := entries[|entries| - 1];
      var saved := SaveAll(rows, prefix, init, stringify, now);
      SaveAllKeepsOthers(rows, prefix, init, stringify, now);
      UpsertStores(saved, prefix + last.0, stringify(last.1), now);
      forall key | !Names(prefix, entries, key)
        ensures Lookup(SaveAll(rows, prefix, entries, stringify, now), key) == Lookup(rows, key)
      {
        assert !Names(prefix, init, key);
        assert prefix + last.0 != key;
      }
    }
  }

  /** Distinct names give distinct keys under the same prefix. */
  lemma PrefixInjective(prefix: string, a: string, b: string)
    requires a != b
    ensures prefix + a != prefix + b
  {
    assert (prefix + a)[|prefix|..] == a && (prefix + b)[|prefix|..] == b;
  }

  /** Every posted setting is stored as the string of its value, when the setting
      names are distinct (as the entries of an object are). */
  lemma {:induction false} PostedValuesStored(rows: seq<SettingRow>, prefix: string, entries: seq<(string, Json)>,
                                             stringify: Json -> string, now: nat)
    requires forall i, j :: 0 <= i < j < |entries| ==> entries[i].0 != entries[j].0
    ensures forall i :: 0 <= i < |entries| ==>
      Lookup(SaveAll(rows, prefix, entries, stringify, now), prefix + entries[i].0) == Some(stringify(entries[i].1))
    decreases |entries|
  {
    if entries != [] {
      var init := entries[..|entries| - 1];
      var last := entries[|entries| - 1];
      var saved := SaveAll(rows, prefix, init, stringify, now);
      var r := Upsert(saved, prefix + last.0, stringify(last.1), now);
      assert SaveAll(rows, prefix, entries, stringify, now) == r;
      PostedValuesStored(rows, prefix, init, stringify, now);
      UpsertStores(saved, prefix + last.0, stringify(last.1), now);
      forall i | 0 <= i < |entries| - 1
        ensures Lookup(r, prefix + entries[i].0) == Some(stringify(entries[i].1))
      {
        assert entries[i] == init[i];
        PrefixInjective(prefix, entries[i].0, last.0);
      }
    }
  }

  datatype PostResponse = PostUnauthorized | PostBadRequest | Saved | PostFailed

  /** What the route does with a request body (None when it is not JSON): the
      response, and the settings table after it. */
  function Post(hasSession: bool, body: Option<Json>, rows: seq<SettingRow>,
                stringify: Json -> string, now: nat): (r: (PostResponse, seq<SettingRow>))
    ensures r.0 != Saved ==> r.1 == rows
    ensures !hasSession <==> r.0 == PostUnauthorized
    ensures r.0 == PostFailed <==>
      (&& hasSession
       && (|| body.None? || body.value.JNull?
           || (&& Truthy(Member(body.value, "jobName")) && Truthy(Member(body.value, "settings"))
               && IsObject(Member(body.value, "settings")) && ToStringThrows(Member(body.value, "jobName").value))))
    ensures r.0 == PostBadRequest <==>
      (&& hasSession && body.Some? && !body.value.JNull?
       && (!Truthy(Member(body.value, "jobName")) || !Truthy(Member(body.value, "settings"))
           || !IsObject(Member(body.value, "settings"))))
    ensures r.0 == Saved ==>
      && hasSession && body.Some? && Truthy(Member(body.value, "jobName")) && IsObject(Member(body.value, "settings"))
      && JsText(Member(body.value, "jobName").value).Some?
      && r.1 == SaveAll(rows, Prefix(JsText(Member(body.value, "jobName").value).value),
                        Entries(Member(body.value, "settings").value), stringify, now)
  {
    if !hasSession then (PostUnauthorized, rows)
    else if body.None? || body.value.JNull? then (PostFailed, rows)
    else
      var jobName := Member(body.value, "jobName");
      var settings := Member(body.value, "settings");
      if !Truthy(jobName) || !Truthy(settings) || !IsObject(settings) then (PostBadRequest, rows)
      else match JsText(jobName.value)
        case None => (PostFailed, rows)
        case Some(name) => (Saved, SaveAll(rows, Prefix(name), Entries(settings.value), stringify, now))
  }

  /** A `jobName` object with its own `toString` member cannot be put in the prefix:
      the route answers 500 and writes nothing, as for the body
      `{"jobName": {"toString": 1}, "settings": {"a": 1}}`. */
  lemma ToStringMemberFails(rows: seq<SettingRow>, stringify: Json -> string, now: nat)
    ensures var body := JObject([("jobName", JObject([("toString", JNumber(1))])),
                                 ("settings", JObject([("a", JNumber(1))]))]);
      Post(true, Some(body), rows, stringify, now) == (PostFailed, rows)
  {
    var name := JObject([("toString", JNumber(1))]);
    var body := JObject([("jobName", name), ("settings", JObject([("a", JNumber(1))]))]);
    assert body.members[..1] == [("jobName", name)];
    assert "settings" != "jobName";
    assert LastMember(body.members[..1], "jobName") == Some(name);
    assert Member(body, "jobName") == Some(name);
    assert name.members[0].0 == "toString";
  }

  // ---------------------------------------------------------------------------
  // Properties across the two routes
  // ---------------------------------------------------------------------------

  /** Saving settings for a job and reading them back returns every posted value,
      when parsing inverts stringifying on those values. */
  lemma PostThenGet(rows: seq<SettingRow>, jobName: string, entries: seq<(string, Json)>,
                    stringify: Json -> string, parse: string -> Option<Json>, now: nat)
    requires jobName != ""
    requires forall i, j :: 0 <= i < j < |entries| ==> entries[i].0 != entries[j].0
    requires forall i :: 0 <= i < |entries| ==> parse(stringify(entries[i].1)) == Some(entries[i].1)
    ensures var saved := Post(true, Some(JObject([("jobName", JString(jobName)), ("settings", JObject(entries))])),
                              rows, stringify, now);
      && saved.0 == Saved
      && var got := Get(true, Some(jobName), saved.1, parse);
         got.Settings? && forall i :: 0 <= i < |entries| ==>
           entries[i].0 in got.values && got.values[entries[i].0] == entries[i].1
  {
    var body := JObject([("jobName", JString(jobName)), ("settings", JObject(entries))]);
    assert body.members[..1] == [("jobName", JString(jobName))];
    assert "settings" != "jobName";
    assert LastMember(body.members[..1], "jobName") == Some(JString(jobName));
    assert Member(body, "jobName") == Some(JString(jobName));
    assert Member(body, "settings") == Some(JObject(entries));
    var saved := SaveAll(rows, Prefix(jobName), entries, stringify, now);
    PostedValuesStored(rows, Prefix(jobName), entries, stringify, now);
  }

  /** The filter is a bare prefix test: a GET for job `a` also returns what job
      `a_b` saved, each name prefixed with `b_`. */
  lemma PrefixOverlap(rows: seq<SettingRow>, job: string, suffix: string, name: string, parse: string -> Option<Json>)
    requires job != "" && HasKey(rows, Prefix(job + "_" + suffix) + name)
    ensures var got := Get(true, Some(job), rows, parse);
      got.Settings? && suffix + "_" + name in got.values
  {
    assert Prefix(job + "_" + suffix) + name == Prefix(job) + (suffix + "_" + name);
  }

  /** Setting `b_c` of job `a` and setting `c` of job `a_b` are the same row. */
  lemma SharedStorageKey(job: string, suffix: string, name: string)
    ensures Prefix(job) + (suffix + "_" + name) == Prefix(job + "_" + suffix) + name
  {
  }

  // ---------------------------------------------------------------------------
  // The settings table as the POST handler updates it
  // ---------------------------------------------------------------------------

  class SettingsTable {
    var rows: seq<SettingRow>

    constructor(rows: seq<SettingRow>)
      ensures this.rows == rows
    {
      this.rows := rows;
    }

    /** `select().from(settings).where(key = key).limit(1)`. */
    method SelectByKey(key: string) returns (existing: seq<SettingRow>)
      ensures |existing| <= 1
      ensures existing != [] <==> HasKey(rows, key)
      ensures existing != [] ==> existing[0].key == key
    {
      var i := 0;
      while i < |rows|
        invariant 0 <= i <= |rows|
        invariant forall k :: 0 <= k < i ==> rows[k].key != key
      {
        if rows[i].key == key {
          return [rows[i]];
        }
        i := i + 1;
      }
      return [];
    }

    /** `update(settings).set({ value, updatedAt: now }).where(key = key)`. */
    method UpdateByKey(key: string, value: string, now: nat)
      modifies this
      ensures rows == SetWhere(old(rows), key, value, now)
    {
      var i := 0;
      while i < |rows|
        invariant 0 <= i <= |rows| == |old(rows)|
        invariant forall k :: 0 <= k < i ==> rows[k] == SetWhere(old(rows), key, value, now)[k]
        invariant forall k :: i <= k < |rows| ==> rows[k] == old(rows)[k]
      {
        if rows[i].key == key {
          rows := rows[i := SettingRow(key, value, Some(now))];
        }
        i := i + 1;
      }
    }

    /** `insert(settings).values({ key, value })`. */
    method Insert(key: string, value: string)
      modifies this
      ensures rows == old(rows) + [SettingRow(key, value, None)]
    {
      rows := rows + [SettingRow(key, value, None)];
    }

    /** The loop of the POST handler over `Object.entries(settings)`: select the
        prefixed key, update it when a row exists and insert it otherwise. */
    method SaveSettings(prefix: string, entries: seq<(string, Json)>, stringify: Json -> string, now: nat)
      modifies this
      ensures rows == SaveAll(old(rows), prefix, entries, stringify, now)
    {
      var i := 0;
      while i < |entries|
        invariant 0 <= i <= |entries|
        invariant rows == SaveAll(old(rows), prefix, entries[..i], stringify, now)
      {
        SaveAllStep(old(rows), prefix, entries, i, stringify, now);
        var settingKey := prefix + entries[i].0;
        var settingValue := stringify(entries[i].1);
        var existing := SelectByKey(settingKey);
        if |existing| > 0 {
          UpdateByKey(settingKey, settingValue, now);
        } else {
          Insert(settingKey, settingValue);
        }
        i := i + 1;
      }
      assert entries[..i] == entries;
    }

    method HandlePost(hasSession: bool, body: Option<Json>, stringify: Json -> string, now: nat)
      returns (response: PostResponse)
      modifies this
      ensures (response, rows) == Post(hasSession, body, old(rows), stringify, now)
    {
      ghost var goal := Post(hasSession, body, old(rows), stringify, now);
      if !hasSession {
        return PostUnauthorized;
      }
      if body.None? || body.value.JNull? {
        return PostFailed;
      }
      var jobName := Member(body.value, "jobName");
      var settings := Member(body.value, "settings");
      if !Truthy(jobName) || !Truthy(settings) || !IsObject(settings) {
        return PostBadRequest;
      }
      var name := JsText(jobName.value);
      if name.None? {
        return PostFailed;
      }
      var prefix := Prefix(name.value);
      var entries := Entries(settings.value);
      assert goal == (Saved, SaveAll(old(rows), prefix, entries, stringify, now));
      SaveSettings(prefix, entries, stringify, now);
      return Saved;
    }
  }
}
