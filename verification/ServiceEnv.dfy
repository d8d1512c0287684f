/** Environment entries and saved install parameters of the background service
    (client/cmd/service.go, client/cmd/service_params.go). */
module ServiceEnv {
  import opened Prelude

  type EnvMap = map<string, string>

  // --------------------------------------------------------------------- trimming

  /** The white space that `strings.TrimSpace` cuts off. */
  predicate IsSpace(c: char) {
    '\t' <= c <= '\r' || c == ' ' || c == '\U{85}' || c == '\U{A0}' || c == '\U{1680}'
    || '\U{2000}' <= c <= '\U{200A}' || c == '\U{2028}' || c == '\U{2029}' || c == '\U{202F}'
    || c == '\U{205F}' || c == '\U{3000}'
  }

  predicate AllSpace(s: string) {
    forall i :: 0 <= i < |s| ==> IsSpace(s[i])
  }

  predicate Trimmed(s: string) {
    s != "" ==> !IsSpace(s[0]) && !IsSpace(s[|s| - 1])
  }

  function TrimLeft(s: string): (r: string)
    ensures |r| <= |s| && s[|s| - |r|..] == r && AllSpace(s[..|s| - |r|])
    ensures r != "" ==> !IsSpace(r[0])
  {
    if s != "" && IsSpace(s[0]) then TrimLeft(s[1..]) else s
  }

  function TrimRight(s: string): (r: string)
    ensures |r| <= |s| && s[..|r|] == r && AllSpace(s[|r|..])
    ensures r != "" ==> !IsSpace(r[|r| - 1])
  {
    if s != "" && IsSpace(s[|s| - 1]) then
      var r := TrimRight(s[..|s| - 1]);
      assert s[|r|..] == s[..|s| - 1][|r|..] + [s[|s| - 1]];
      r
    else s
  }

  /** `r` is what is left of `s` when all white space at both ends is cut off. */
  ghost predicate TrimsTo(s: string, r: string) {
    Trimmed(r) && exists i, j :: CutsTo(s, i, j, r)
  }

  predicate CutsTo(s: string, i: int, j: int, r: string) {
    0 <= i <= j <= |s| && r == s[i..j] && AllSpace(s[..i]) && AllSpace(s[j..])
  }

  function TrimSpace(s: string): (r: string)
    ensures Trimmed(r)
  {
    var left := TrimLeft(s);
    TrimRight(left)
  }

  lemma TrimSpaceTrims(s: string)
    ensures TrimsTo(s, TrimSpace(s))
  {
    var left, r := TrimLeft(s), TrimSpace(s);
    assert CutsTo(s, |s| - |left|, |s| - |left| + |r|, r) by {
      assert s[|s| - |left| + |r|..] == left[|r|..];
    }
  }

  lemma SpaceBefore(s: string, k: int, i: int)
    requires 0 <= i < k <= |s| && AllSpace(s[..k])
    ensures IsSpace(s[i])
  {
    assert s[..k][i] == s[i];
  }

  lemma SpaceAfter(s: string, l: int, i: int)
    requires 0 <= l <= i < |s| && AllSpace(s[l..])
    ensures IsSpace(s[i])
  {
    assert s[l..][i - l] == s[i];
  }

  /** The ends of a trimmed rest are not white space, so no other cut goes beyond them. */
  lemma InnerKept(s: string, i: int, j: int, r: string, k: int, l: int, t: string)
    requires CutsTo(s, i, j, r) && CutsTo(s, k, l, t) && Trimmed(r) && r != ""
    ensures k <= i && j <= l
  {
    assert r[0] == s[i] && r[|r| - 1] == s[j - 1];
    if k > i { SpaceBefore(s, k, i); }
    if j > l { SpaceAfter(s, l, j - 1); }
  }

  lemma SameCut(s: string, i: int, j: int, r: string, k: int, l: int, t: string)
    requires CutsTo(s, i, j, r) && CutsTo(s, k, l, t) && Trimmed(r) && Trimmed(t)
    ensures r == t
  {
    if r != "" { InnerKept(s, i, j, r, k, l, t); }
    if t != "" { InnerKept(s, k, l, t, i, j, r); }
    assert r != "" && t != "" ==> i == k && j == l;
  }

  /** Trimming has one result only. */
  lemma TrimsToOne(s: string, r: string)
    ensures TrimsTo(s, r) <==> r == TrimSpace(s)
  {
    var t := TrimSpace(s);
    TrimSpaceTrims(s);
    var k, l :| CutsTo(s, k, l, t);
    if TrimsTo(s, r) {
      var i, j :| CutsTo(s, i, j, r);
      SameCut(s, i, j, r, k, l, t);
    }
  }

  lemma TrimmedKept(s: string)
    ensures Trimmed(s) <==> TrimSpace(s) == s
    ensures AllSpace(s) <==> TrimSpace(s) == ""
    ensures forall c :: c in TrimSpace(s) ==> c in s
  {
    if Trimmed(s) {
      assert CutsTo(s, 0, |s|, s);
      TrimsToOne(s, s);
    }
    if AllSpace(s) {
      assert CutsTo(s, 0, 0, "");
      TrimsToOne(s, "");
    }
    TrimSpaceTrims(s);
    var i, j :| CutsTo(s, i, j, TrimSpace(s));
    if TrimSpace(s) == "" {
      forall k | 0 <= k < |s| ensures IsSpace(s[k]) {
        if k < i { assert s[..i][k] == s[k]; } else { assert s[j..][k - j] == s[k]; }
      }
    }
  }

  // ---------------------------------------------------------------------- parsing

  datatype Entry = Skipped | Malformed | Pair(key: string, value: string)

  /** One round of the parsing loop. */
  function ParseEntry(e: string): Entry {
    if e == "" then Skipped
    else
      var i := IndexFrom(e, '=', 0);
      if i == |e| then Malformed else Halves(e[..i], e[i + 1..])
  }

  function Halves(left: string, right: string): Entry {
    var key, value := TrimSpace(left), TrimSpace(right);
    if key == "" then Malformed else Pair(key, value)
  }

  function Record(acc: Option<EnvMap>, e: Entry): Option<EnvMap> {
    if acc.None? || e.Malformed? then None
    else if e.Skipped? then acc
    else Some(acc.value[e.key := e.value])
  }

  function Recorded(entries: seq<Entry>): Option<EnvMap> {
    if entries == [] then Some(map[])
    else Record(Recorded(entries[..|entries| - 1]), entries[|entries| - 1])
  }

  function Entries(es: seq<string>): seq<Entry> {
    seq(|es|, i requires 0 <= i < |es| => ParseEntry(es[i]))
  }

  /** What `parseServiceEnvVars` returns; None is its error. */
  function Parsed(es: seq<string>): Option<EnvMap> {
    Recorded(Entries(es))
  }

  method ParseServiceEnvVars(es: seq<string>) returns (r: Option<EnvMap>)
    ensures r == Parsed(es)
  {
    var envs: EnvMap := map[];
    ghost var entries := Entries(es);
    for n := 0 to |es|
      invariant Recorded(entries[..n]) == Some(envs)
    {
      RecordNext(entries, n);
      var entry := ParseEntry(es[n]);
      match entry {
        case Skipped =>
        case Malformed =>
          MalformedFails(entries, n);
          return None;
        case Pair(key, value) =>
          envs := envs[key := value];
      }
    }
    assert entries[..|es|] == entries;
    r := Some(envs);
  }

  lemma RecordNext(entries: seq<Entry>, n: nat)
    requires n < |entries|
    ensures Recorded(entries[..n + 1]) == Record(Recorded(entries[..n]), entries[n])
  {
    assert entries[..n + 1][..n] == entries[..n];
  }

  lemma {:induction false} MalformedFails(entries: seq<Entry>, n: nat)
    requires n < |entries| && entries[n].Malformed?
    ensures Recorded(entries).None?
  {
    if n < |entries| - 1 {
      MalformedFails(entries[..|entries| - 1], n);
    }
  }

  /** Entry `i` is the last one that sets `key`. */
  predicate Wins(entries: seq<Entry>, i: nat, key: string)
    requires i < |entries|
  {
    entries[i].Pair? && entries[i].key == key
    && forall j :: i < j < |entries| && entries[j].Pair? ==> entries[j].key != key
  }

  /** Parsing fails exactly on a malformed entry. */
  lemma {:induction false} FailsOnMalformed(entries: seq<Entry>)
    ensures Recorded(entries).None? <==> exists i :: 0 <= i < |entries| && entries[i].Malformed?
  {
    if entries != [] {
      var front := entries[..|entries| - 1];
      FailsOnMalformed(front);
      forall i | 0 <= i < |front| ensures front[i] == entries[i] {
      }
    }
  }

  /** After a successful parse each key has the value of its last occurrence. */
  lemma {:induction false} LastOccurrenceWins(entries: seq<Entry>, i: nat, k: string)
    requires Recorded(entries).Some? && i < |entries| && Wins(entries, i, k)
    ensures k in Recorded(entries).value && Recorded(entries).value[k] == entries[i].value
  {
    var front, last := entries[..|entries| - 1], |entries| - 1;
    if i < last {
      assert entries[last].Pair? ==> entries[last].key != k;
      LastOccurrenceWins(front, i, k);
    }
  }

  /** No key appears that no entry sets. */
  lemma {:induction false} ParsedKeyIsSet(entries: seq<Entry>, k: string) returns (i: nat)
    requires Recorded(entries).Some? && k in Recorded(entries).value
    ensures i < |entries| && Wins(entries, i, k)
  {
    var front, last := entries[..|entries| - 1], |entries| - 1;
    if entries[last].Pair? && entries[last].key == k {
      i := last;
    } else {
      i := ParsedKeyIsSet(front, k);
    }
  }

  /** Keys that survive being printed and parsed again. */
  predicate GoodKey(k: string) {
    k != "" && Trimmed(k) && '=' !in k
  }

  predicate WellFormed(m: EnvMap) {
    forall k :: k in m ==> GoodKey(k) && Trimmed(m[k])
  }

  /** Whatever the input, a successful parse yields a well-formed map. */
  lemma ParsedWellFormed(es: seq<string>)
    ensures Parsed(es).Some? ==> WellFormed(Parsed(es).value)
  {
    if Parsed(es).Some? {
      var m := Parsed(es).value;
      forall k | k in m ensures GoodKey(k) && Trimmed(m[k]) {
        var i := ParsedKeyIsSet(Entries(es), k);
        LastOccurrenceWins(Entries(es), i, k);
        ParsedPair(es[i]);
      }
    }
  }

  lemma ParsedPair(e: string)
    ensures ParseEntry(e).Pair? ==> GoodKey(ParseEntry(e).key) && Trimmed(ParseEntry(e).value)
  {
    if ParseEntry(e).Pair? {
      var i := IndexFrom(e, '=', 0);
      TrimmedKept(e[..i]);
    }
  }

  // ------------------------------------------------------- the meaning of the strings

  /** The first '=' of the entry is at `i`. */
  predicate DividesAt(e: string, i: int) {
    0 <= i < |e| && e[i] == '=' && forall k :: 0 <= k < i ==> e[k] != '='
  }

  /** The entry sets `key` to `value`: these are the texts around its first '=', without the white
      space at their ends. */
  ghost predicate Assigns(e: string, key: string, value: string) {
    key != "" && exists i :: DividesAt(e, i) && TrimsTo(e[..i], key) && TrimsTo(e[i + 1..], value)
  }

  /** The entry is neither empty nor an assignment: no '=', or only white space before the first. */
  ghost predicate Broken(e: string) {
    e != "" && forall i :: DividesAt(e, i) ==> AllSpace(e[..i])
  }

  lemma DividesFirst(e: string)
    ensures forall i :: DividesAt(e, i) <==> i == IndexFrom(e, '=', 0) < |e|
  {
    var n := IndexFrom(e, '=', 0);
    forall i ensures DividesAt(e, i) <==> i == n < |e| {
    }
  }

  lemma AssignsHere(e: string, i: int, key: string, value: string)
    requires DividesAt(e, i)
    ensures Assigns(e, key, value) <==> key != "" && TrimSpace(e[..i]) == key && TrimSpace(e[i + 1..]) == value
  {
    DividesFirst(e);
    TrimsToOne(e[..i], key);
    TrimsToOne(e[i + 1..], value);
  }

  lemma BrokenHere(e: string, i: int)
    requires DividesAt(e, i)
    ensures Broken(e) <==> TrimSpace(e[..i]) == ""
  {
    DividesFirst(e);
    TrimmedKept(e[..i]);
  }

  lemma EntryDivided(e: string, i: int)
    requires DividesAt(e, i)
    ensures ParseEntry(e) == Halves(e[..i], e[i + 1..])
  {
    DividesFirst(e);
  }

  lemma EntryUndivided(e: string)
    requires forall i :: !DividesAt(e, i)
    ensures ParseEntry(e) == if e == "" then Skipped else Malformed
  {
    var i := IndexFrom(e, '=', 0);
    assert i == |e| by {
      DividesFirst(e);
      assert !DividesAt(e, i);
    }
  }

  /** One entry, decided on its characters. */
  lemma EntryMeaning(e: string, key: string, value: string)
    ensures ParseEntry(e) == Pair(key, value) <==> Assigns(e, key, value)
    ensures ParseEntry(e).Malformed? <==> Broken(e)
  {
    if i :| DividesAt(e, i) {
      EntryDivided(e, i);
      AssignsHere(e, i, key, value);
      BrokenHere(e, i);
    } else {
      EntryUndivided(e);
    }
  }

  /** Parsing fails exactly on a non-empty entry without '=', or with nothing but white space before
      its first '='. */
  lemma ParseFailsIff(es: seq<string>)
    ensures Parsed(es).None? <==> exists i :: 0 <= i < |es| && Broken(es[i])
  {
    FailsOnMalformed(Entries(es));
    forall i | 0 <= i < |es| ensures Entries(es)[i].Malformed? <==> Broken(es[i]) {
      EntryMeaning(es[i], "", "");
    }
    if i :| 0 <= i < |es| && Broken(es[i]) {
      assert Entries(es)[i].Malformed?;
    }
  }

  /** Entry `i` is the last one that sets `key`, and sets it to `value`. */
  ghost predicate SetsLast(es: seq<string>, i: nat, key: string, value: string)
    requires i < |es|
  {
    Assigns(es[i], key, value) && forall j, v :: i < j < |es| ==> !Assigns(es[j], key, v)
  }

  lemma SetsLastWins(es: seq<string>, i: nat, key: string, value: string)
    requires i < |es|
    ensures SetsLast(es, i, key, value) <==> Wins(Entries(es), i, key) && Entries(es)[i].value == value
  {
    EntryMeaning(es[i], key, value);
    assert Entries(es)[i] == ParseEntry(es[i]);
    forall j | i < j < |es|
      ensures (exists v :: Assigns(es[j], key, v)) <==> Entries(es)[j].Pair? && Entries(es)[j].key == key
    {
      EntryKey(es[j], key);
    }
  }

  lemma EntryKey(e: string, key: string)
    ensures (exists v :: Assigns(e, key, v)) <==> ParseEntry(e).Pair? && ParseEntry(e).key == key
  {
    if v :| Assigns(e, key, v) {
      EntryMeaning(e, key, v);
    }
    if ParseEntry(e).Pair? && ParseEntry(e).key == key {
      EntryMeaning(e, key, ParseEntry(e).value);
    }
  }

  /** What an accepted list of entries means: a key has exactly the value that its last assignment
      gives it. */
  lemma ParsedIff(es: seq<string>, key: string, value: string)
    requires Parsed(es).Some?
    ensures key in Parsed(es).value && Parsed(es).value[key] == value
            <==> exists i :: 0 <= i < |es| && SetsLast(es, i, key, value)
  {
    if key in Parsed(es).value && Parsed(es).value[key] == value {
      var i := ParsedKeyIsSet(Entries(es), key);
      LastOccurrenceWins(Entries(es), i, key);
      SetsLastWins(es, i, key, value);
    }
    if i :| 0 <= i < |es| && SetsLast(es, i, key, value) {
      SetsLastWins(es, i, key, value);
      LastOccurrenceWins(Entries(es), i, key);
    }
  }

  // --------------------------------------------------------------------- printing

  /** `order` lists every key of `m` once: one way Go may range over the map. */
  ghost predicate Enumerates(order: seq<string>, m: EnvMap) {
    (forall i, j :: 0 <= i < j < |order| ==> order[i] != order[j])
    && forall k :: k in order <==> k in m
  }

  function Printed(order: seq<string>, m: EnvMap): seq<string>
    requires forall k :: k in order ==> k in m
  {
    seq(|order|, i requires 0 <= i < |order| => order[i] + "=" + m[order[i]])
  }

  method EnvMapToSlice(m: EnvMap) returns (s: seq<string>)
    ensures exists order :: Enumerates(order, m) && s == Printed(order, m)
  {
    s := [];
    ghost var order := [];
    var rest := m.Keys;
    while rest != {}
      invariant rest <= m.Keys
      invariant forall k :: k in order <==> k in m && k !in rest
      invariant forall i, j :: 0 <= i < j < |order| ==> order[i] != order[j]
      invariant s == Printed(order, m)
      decreases |rest|
    {
      var k :| k in rest;
      s := s + [k + "=" + m[k]];
      order := order + [k];
      rest := rest - {k};
    }
    assert Enumerates(order, m);
  }

  lemma PrintedEntry(k: string, v: string)
    requires GoodKey(k) && Trimmed(v)
    ensures ParseEntry(k + "=" + v) == Pair(k, v)
  {
    var e := k + "=" + v;
    assert e[|k|] == '=';
    assert forall i :: 0 <= i < |k| ==> e[i] == k[i] && k[i] in k;
    assert IndexFrom(e, '=', 0) == |k|;
    assert e[..|k|] == k && e[|k| + 1..] == v;
    TrimmedKept(k);
    TrimmedKept(v);
  }

  function Pairs(order: seq<string>, m: EnvMap): seq<Entry>
    requires forall k :: k in order ==> k in m
  {
    seq(|order|, i requires 0 <= i < |order| => Pair(order[i], m[order[i]]))
  }

  lemma {:induction false} RecordedPairs(order: seq<string>, m: EnvMap)
    requires forall k :: k in order ==> k in m
    ensures Recorded(Pairs(order, m)) == Some(map k | k in order :: m[k])
  {
    if order != [] {
      var front, k := order[..|order| - 1], order[|order| - 1];
      RecordedPairs(front, m);
      assert Pairs(order, m)[..|order| - 1] == Pairs(front, m);
      assert (map j | j in front :: m[j])[k := m[k]] == map j | j in order :: m[j];
    }
  }

  lemma PrintedEntries(order: seq<string>, m: EnvMap)
    requires WellFormed(m) && forall k :: k in order ==> k in m
    ensures Entries(Printed(order, m)) == Pairs(order, m)
  {
    forall i | 0 <= i < |order| ensures Entries(Printed(order, m))[i] == Pairs(order, m)[i] {
      assert order[i] in order;
      PrintedEntry(order[i], m[order[i]]);
    }
  }

  /** Printing a map in any order and parsing it gives the map back exactly when its keys are
      non-empty, trimmed and free of '=' and its values are trimmed. */
  lemma ParsePrintIff(order: seq<string>, m: EnvMap)
    requires Enumerates(order, m)
    ensures Parsed(Printed(order, m)) == Some(m) <==> WellFormed(m)
  {
    ParsedWellFormed(Printed(order, m));
    if WellFormed(m) {
      PrintedEntries(order, m);
      RecordedPairs(order, m);
      assert (map k | k in order :: m[k]) == m;
    }
  }

  // -------------------------------------------------------------- saved parameters

  datatype Params = Params(logLevel: string, daemonAddr: string, managementURL: string,
                           configPath: string, logFiles: seq<string>, disableProfiles: bool,
                           disableUpdateSettings: bool, disableNetworks: bool, envVars: EnvMap)

  /** The package-level variables behind the command-line flags. */
  datatype Flags = Flags(logLevel: string, daemonAddr: string, managementURL: string,
                         configPath: string, logFiles: seq<string>, disableProfiles: bool,
                         disableUpdateSettings: bool, disableNetworks: bool, envVars: seq<string>)

  /** Which flags the user set explicitly. */
  datatype Changed = Changed(logLevel: bool, daemonAddr: bool, managementURL: bool,
                             configPath: bool, logFiles: bool, disableProfiles: bool,
                             disableUpdateSettings: bool, disableNetworks: bool, envVars: bool)

  const NOTHING_CHANGED := Changed(false, false, false, false, false, false, false, false, false)

  /** The environment a list of entries stands for; unreadable lists are dropped. */
  function Environment(es: seq<string>): EnvMap {
    var r := Parsed(es);
    if r.Some? then r.value else map[]
  }

  function Current(f: Flags): Params {
    Params(f.logLevel, f.daemonAddr, f.managementURL, f.configPath, f.logFiles,
           f.disableProfiles, f.disableUpdateSettings, f.disableNetworks, Environment(f.envVars))
  }

  /** What becomes of the entry list: it stays, is emptied, or is reprinted from a map. */
  datatype Plan = Keep | Clear | Reprint(envs: EnvMap)

  function EnvPlan(changed: bool, es: seq<string>, saved: EnvMap): Plan {
    if !changed then (if saved == map[] then Keep else Reprint(saved))
    else
      var explicit := Parsed(es);
      if explicit.None? then Keep
      else if explicit.value == map[] then Clear
      else if saved == map[] then Keep
      else Reprint(saved + explicit.value)
  }

  ghost predicate Realizes(plan: Plan, before: seq<string>, after: seq<string>) {
    match plan
    case Keep => after == before
    case Clear => after == []
    case Reprint(m) => exists order :: Enumerates(order, m) && after == Printed(order, m)
  }

  /** A saved setting replaces one that was not given; an empty level or address never does. */
  predicate SettingsApply(c: Changed, p: Params, before: Flags, after: Flags) {
    after.logLevel == (if !c.logLevel && p.logLevel != "" then p.logLevel else before.logLevel)
    && after.daemonAddr == (if !c.daemonAddr && p.daemonAddr != "" then p.daemonAddr else before.daemonAddr)
    && after.managementURL == (if c.managementURL then before.managementURL else p.managementURL)
    && after.configPath == (if c.configPath then before.configPath else p.configPath)
    && after.logFiles == (if c.logFiles then before.logFiles else p.logFiles)
    && after.disableProfiles == (if c.disableProfiles then before.disableProfiles else p.disableProfiles)
    && after.disableUpdateSettings
       == (if c.disableUpdateSettings then before.disableUpdateSettings else p.disableUpdateSettings)
    && after.disableNetworks == (if c.disableNetworks then before.disableNetworks else p.disableNetworks)
  }

  /** `after` may result from applying saved parameters to `before`. */
  ghost predicate Applies(c: Changed, p: Params, before: Flags, after: Flags) {
    SettingsApply(c, p, before, after)
    && Realizes(EnvPlan(c.envVars, before.envVars, p.envVars), before.envVars, after.envVars)
  }

  lemma ReprintMeaning(m: EnvMap, after: seq<string>)
    requires Realizes(Reprint(m), [], after) && m != map[]
    ensures Environment(after) == m <==> WellFormed(m)
  {
    var order :| Enumerates(order, m) && after == Printed(order, m);
    ParsePrintIff(order, m);
  }

  /** The environment that remains when saved and given entries meet: saved ones alone when the
      flag is absent, nothing when it is given empty, else saved ones overridden by given ones. */
  lemma MergedEnvironment(changed: bool, es: seq<string>, saved: EnvMap, after: seq<string>)
    requires WellFormed(saved) && Realizes(EnvPlan(changed, es, saved), es, after)
    ensures Environment(after) ==
              if !changed then (if saved == map[] then Environment(es) else saved)
              else if Environment(es) == map[] then map[]
              else saved + Environment(es)
  {
    var plan := EnvPlan(changed, es, saved);
    ParsedWellFormed(es);
    if plan.Reprint? {
      ReprintMeaning(plan.envs, after);
    } else if changed && saved == map[] {
      assert saved + Environment(es) == Environment(es);
    }
  }

  /** Exactly which keys of a hand-edited file break the merge. */
  lemma MergeIff(es: seq<string>, saved: EnvMap, after: seq<string>)
    requires Environment(es) != map[] && saved != map[]
    requires Realizes(EnvPlan(true, es, saved), es, after)
    ensures Environment(after) == saved + Environment(es)
            <==> WellFormed(map k | k in saved && k !in Environment(es) :: saved[k])
  {
    var x := Environment(es);
    var kept := map k | k in saved && k !in x :: saved[k];
    ParsedWellFormed(es);
    ReprintMeaning(saved + x, after);
    if WellFormed(saved + x) {
      forall k | k in kept ensures GoodKey(k) && Trimmed(kept[k]) {
        assert k in saved + x && (saved + x)[k] == kept[k];
      }
    }
    if WellFormed(kept) {
      forall k | k in saved + x ensures GoodKey(k) && Trimmed((saved + x)[k]) {
        if k !in x { assert k in kept && kept[k] == saved[k]; }
      }
    }
  }

  /** Reinstalling without flags restores exactly the saved parameters, unless an empty saved
      field meets a non-empty default, or the saved environment cannot be printed faithfully. */
  lemma ReinstallRestoresIff(p: Params, before: Flags, after: Flags)
    requires Applies(NOTHING_CHANGED, p, before, after)
    ensures Current(after) == p <==>
              (p.logLevel == "" ==> before.logLevel == "")
              && (p.daemonAddr == "" ==> before.daemonAddr == "")
              && (if p.envVars == map[] then Environment(before.envVars) == map[] else WellFormed(p.envVars))
  {
    if p.envVars != map[] {
      ReprintMeaning(p.envVars, after.envVars);
    }
  }

  /** Parameters captured from a first install come back on a later one that sets no flags. */
  lemma SaveThenReinstall(first: Flags, before: Flags, after: Flags)
    requires Applies(NOTHING_CHANGED, Current(first), before, after)
    requires first.logLevel != "" && first.daemonAddr != "" && before.envVars == []
    ensures Current(after) == Current(first)
  {
    ParsedWellFormed(first.envVars);
    ReinstallRestoresIff(Current(first), before, after);
  }

  class Command {
    var logLevel: string
    var daemonAddr: string
    var managementURL: string
    var configPath: string
    var logFiles: seq<string>
    var disableProfiles: bool
    var disableUpdateSettings: bool
    var disableNetworks: bool
    var envVars: seq<string>

    function State(): Flags
      reads this
    {
      Flags(logLevel, daemonAddr, managementURL, configPath, logFiles,
            disableProfiles, disableUpdateSettings, disableNetworks, envVars)
    }

    method CurrentServiceParams() returns (p: Params)
      ensures p == Current(State())
    {
      var envs: EnvMap := map[];
      if |envVars| > 0 {
        var parsed := ParseServiceEnvVars(envVars);
        if parsed.Some? {
          envs := parsed.value;
        }
      }
      p := Params(logLevel, daemonAddr, managementURL, configPath, logFiles,
                  disableProfiles, disableUpdateSettings, disableNetworks, envs);
    }

    method ApplyServiceEnvParams(changed: bool, saved: EnvMap)
      modifies this`envVars
      ensures Realizes(EnvPlan(changed, old(envVars), saved), old(envVars), envVars)
    {
      if !changed {
        if |saved| > 0 {
          envVars := EnvMapToSlice(saved);
        }
        return;
      }
      var explicit := ParseServiceEnvVars(envVars);
      if explicit.None? {
        return;
      }
      if |explicit.value| == 0 {
        envVars := [];
        return;
      }
      if |saved| == 0 {
        return;
      }
      envVars := EnvMapToSlice(saved + explicit.value);
    }

    method ApplyEndpoints(c: Changed, p: Params)
      modifies this`logLevel, this`daemonAddr, this`managementURL, this`configPath
      ensures logLevel == if !c.logLevel && p.logLevel != "" then p.logLevel else old(logLevel)
      ensures daemonAddr == if !c.daemonAddr && p.daemonAddr != "" then p.daemonAddr else old(daemonAddr)
      ensures managementURL == if c.managementURL then old(managementURL) else p.managementURL
      ensures configPath == if c.configPath then old(configPath) else p.configPath
    {
      if !c.logLevel && p.logLevel != "" { logLevel := p.logLevel; }
      if !c.daemonAddr && p.daemonAddr != "" { daemonAddr := p.daemonAddr; }
      if !c.managementURL { managementURL := p.managementURL; }
      if !c.configPath { configPath := p.configPath; }
    }

    method ApplySwitches(c: Changed, p: Params)
      modifies this`logFiles, this`disableProfiles, this`disableUpdateSettings, this`disableNetworks
      ensures logFiles == if c.logFiles then old(logFiles) else p.logFiles
      ensures disableProfiles == if c.disableProfiles then old(disableProfiles) else p.disableProfiles
      ensures disableUpdateSettings
           == if c.disableUpdateSettings then old(disableUpdateSettings) else p.disableUpdateSettings
      ensures disableNetworks == if c.disableNetworks then old(disableNetworks) else p.disableNetworks
    {
      if !c.logFiles { logFiles := p.logFiles; }
      if !c.disableProfiles { disableProfiles := p.disableProfiles; }
      if !c.disableUpdateSettings { disableUpdateSettings := p.disableUpdateSettings; }
      if !c.disableNetworks { disableNetworks := p.disableNetworks; }
    }

    /** An absent parameter file changes nothing. */
    method ApplyServiceParams(c: Changed, params: Option<Params>)
      modifies this
      ensures params.None? ==> State() == old(State())
      ensures params.Some? ==> Applies(c, params.value, old(State()), State())
    {
      if params.None? {
        return;
      }
      ApplyEndpoints(c, params.value);
      ApplySwitches(c, params.value);
      ApplyServiceEnvParams(c.envVars, params.value.envVars);
    }
  }
}
