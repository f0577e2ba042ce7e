/**
 * The zod schemas of the onboarding and account forms.  A schema is modelled
 * twice: as an acceptance predicate (the bounds the schema enforces) and as
 * the list of issues zod produces, which names every failing field with its
 * path, not just the first one.  Lemmas tie the two together.
 *
 * A length is JavaScript's `.length`, which zod's `.min` and `.max` compare:
 * the number of UTF-16 code units, so a character outside the Basic
 * Multilingual Plane counts twice.
 */
module Schema {
  import opened Optional
  import opened Records

  // ---------------------------------------------------------------- issues

  /** One step of an issue path: an object key or an array index. */
  datatype Segment = Name(key: string) | Index(index: nat)

  type Path = seq<Segment>

  /** The zod issue codes the schemas here can raise. */
  datatype Code = TooSmall(minimum: nat) | TooBig(maximum: nat) | InvalidEnumValue | Refinement

  datatype Issue = Issue(path: Path, code: Code, message: string)

  /** There is an issue at exactly `p`. */
  predicate ReportedAt(xs: seq<Issue>, p: Path)
  {
    exists i :: 0 <= i < |xs| && xs[i].path == p
  }

  /** No issue lies at or below `p`. */
  predicate NoneUnder(xs: seq<Issue>, p: Path)
  {
    forall i :: 0 <= i < |xs| ==> !(p <= xs[i].path)
  }

  lemma ReportedConcat(a: seq<Issue>, b: seq<Issue>, p: Path)
    ensures ReportedAt(a + b, p) <==> ReportedAt(a, p) || ReportedAt(b, p)
  {
    if ReportedAt(a + b, p) {
      var i :| 0 <= i < |a + b| && (a + b)[i].path == p;
      if i >= |a| {
        assert b[i - |a|].path == p;
      }
    }
    if ReportedAt(a, p) {
      var i :| 0 <= i < |a| && a[i].path == p;
      assert (a + b)[i].path == p;
    }
    if ReportedAt(b, p) {
      var i :| 0 <= i < |b| && b[i].path == p;
      assert (a + b)[|a| + i].path == p;
    }
  }

  // ------------------------------------------------------- string checks

  /** The UTF-16 code units a character takes: two for one outside the Basic Multilingual Plane. */
  function CodeUnits(c: char): nat
  {
    if c as int < 0x1_0000 then 1 else 2
  }

  /** A string's JavaScript `.length`: at least one code unit per character, at most two. */
  function Utf16Length(s: string): (n: nat)
    ensures |s| <= n <= 2 * |s|
  {
    if s == [] then 0 else Utf16Length(s[..|s| - 1]) + CodeUnits(s[|s| - 1])
  }

  /** A string of Basic Multilingual Plane characters is as long as it has characters. */
  lemma {:induction false} BmpLength(s: string)
    requires forall i :: 0 <= i < |s| ==> s[i] as int < 0x1_0000
    ensures Utf16Length(s) == |s|
  {
    if s != [] {
      BmpLength(s[..|s| - 1]);
    }
  }

  /** `n` copies of one character take `n` times its code units. */
  lemma {:induction false} RepeatedLength(n: nat, c: char)
    ensures Utf16Length(seq(n, _ => c)) == n * CodeUnits(c)
  {
    if n > 0 {
      var s := seq(n, _ => c);
      assert s[..n - 1] == seq(n - 1, _ => c);
      RepeatedLength(n - 1, c);
    }
  }

  /** A `.min(n, message)` or `.max(n, message)` check on a zod string. */
  datatype LengthCheck = Min(bound: nat, message: string) | Max(bound: nat, message: string)

  predicate Holds(s: string, c: LengthCheck)
  {
    match c
    case Min(n, _) => n <= Utf16Length(s)
    case Max(n, _) => Utf16Length(s) <= n
  }

  function CheckIssue(path: Path, c: LengthCheck): Issue
  {
    match c
    case Min(n, m) => Issue(path, TooSmall(n), m)
    case Max(n, m) => Issue(path, TooBig(n), m)
  }

  /** Runs a zod string's checks in order; each failing check adds its own issue. */
  function StringIssues(path: Path, s: string, checks: seq<LengthCheck>): (r: seq<Issue>)
    ensures r == [] <==> forall i :: 0 <= i < |checks| ==> Holds(s, checks[i])
    ensures forall x :: x in r ==> x.path == path && (x.code.TooSmall? || x.code.TooBig?)
  {
    if checks == [] then []
    else
      (if Holds(s, checks[0]) then [] else [CheckIssue(path, checks[0])])
      + StringIssues(path, s, checks[1..])
  }

  /** A minimum and a maximum check together hold exactly within the two bounds. */
  lemma BetweenChecks(s: string, lo: nat, hi: nat, m1: string, m2: string)
    ensures (forall i :: 0 <= i < 2 ==> Holds(s, [Min(lo, m1), Max(hi, m2)][i])) <==> lo <= Utf16Length(s) <= hi
  {
    assert Holds(s, [Min(lo, m1), Max(hi, m2)][0]) <==> lo <= Utf16Length(s);
    assert Holds(s, [Min(lo, m1), Max(hi, m2)][1]) <==> Utf16Length(s) <= hi;
  }

  const NameTooShort := "Name must be more than 1 character"
  const NameTooLong := "Name must be less than 50 characters"
  const ChoreNameTooLong := "Must not be more than 50 characters"
  const DescriptionTooLong := "Description must be less than 50 characters"
  /** zod's default messages for `.min(8)` and `.max(50)`. */
  const PasswordTooShort := "String must contain at least 8 character(s)"
  const PasswordTooLong := "String must contain at most 50 character(s)"

  /** `.min(1, …).max(50, …)` as the household, area and chore-name fields declare it. */
  const NameChecks: seq<LengthCheck> := [Min(1, NameTooShort), Max(50, NameTooLong)]
  /** The combined schema's chore name: same bounds, its own maximum message. */
  const ChoreNameChecks: seq<LengthCheck> :=
    [Min(1, NameTooShort), Max(50, ChoreNameTooLong)]
  /** The combined schema's description: the bound is 255 while the message says 50. */
  const DescriptionChecks: seq<LengthCheck> := [Max(255, DescriptionTooLong)]
  /** The chore table schema's description: bound and message both say 50. */
  const ChoreTableDescriptionChecks: seq<LengthCheck> := [Max(50, DescriptionTooLong)]
  /** `.min(8).max(50)` with zod's own default messages. */
  const PasswordChecks: seq<LengthCheck> :=
    [Min(8, PasswordTooShort), Max(50, PasswordTooLong)]

  predicate IsName(s: string)
  {
    1 <= Utf16Length(s) <= 50
  }

  function NameIssues(path: Path, s: string): (r: seq<Issue>)
    ensures r == [] <==> 1 <= Utf16Length(s) <= 50
    ensures forall x :: x in r ==> x.path == path
  {
    BetweenChecks(s, 1, 50, NameTooShort, NameTooLong);
    StringIssues(path, s, NameChecks)
  }

  function ChoreNameIssues(path: Path, s: string): (r: seq<Issue>)
    ensures r == [] <==> 1 <= Utf16Length(s) <= 50
    ensures forall x :: x in r ==> x.path == path
  {
    BetweenChecks(s, 1, 50, NameTooShort, ChoreNameTooLong);
    StringIssues(path, s, ChoreNameChecks)
  }

  function PasswordIssues(path: Path, s: string): (r: seq<Issue>)
    ensures r == [] <==> 8 <= Utf16Length(s) <= 50
    ensures forall x :: x in r ==> x.path == path && x.code != Refinement
  {
    BetweenChecks(s, 8, 50, PasswordTooShort, PasswordTooLong);
    StringIssues(path, s, PasswordChecks)
  }

  function DescriptionIssues(path: Path, s: string): (r: seq<Issue>)
    ensures r == [] <==> Utf16Length(s) <= 255
    ensures forall x :: x in r ==> x.path == path
  {
    assert Holds(s, DescriptionChecks[0]) <==> Utf16Length(s) <= 255;
    StringIssues(path, s, DescriptionChecks)
  }

  function TableDescriptionIssues(path: Path, s: string): (r: seq<Issue>)
    ensures r == [] <==> Utf16Length(s) <= 50
    ensures forall x :: x in r ==> x.path == path
  {
    assert Holds(s, ChoreTableDescriptionChecks[0]) <==> Utf16Length(s) <= 50;
    StringIssues(path, s, ChoreTableDescriptionChecks)
  }

  // ---------------------------------------------------------- frequency

  datatype Frequency = Daily | Weekly | BiWeekly | Monthly | Custom

  /** `frequencyOptions`, in declaration order. */
  const FrequencyOptions: seq<string> := ["daily", "weekly", "bi-weekly", "monthly", "custom"]

  function FrequencyName(f: Frequency): (s: string)
    ensures s in FrequencyOptions
  {
    match f
    case Daily => "daily"
    case Weekly => "weekly"
    case BiWeekly => "bi-weekly"
    case Monthly => "monthly"
    case Custom => "custom"
  }

  /** `z.enum(frequencyOptions)`: accepts exactly the five option strings. */
  function ParseFrequency(s: string): (r: Option<Frequency>)
    ensures r.Some? <==> s in FrequencyOptions
    ensures r.Some? ==> FrequencyName(r.value) == s
  {
    if s == "daily" then Some(Daily)
    else if s == "weekly" then Some(Weekly)
    else if s == "bi-weekly" then Some(BiWeekly)
    else if s == "monthly" then Some(Monthly)
    else if s == "custom" then Some(Custom)
    else None
  }

  lemma FrequencyRoundTrip(f: Frequency)
    ensures ParseFrequency(FrequencyName(f)) == Some(f)
  {
  }

  /** zod's default message for a rejected enum value. */
  function EnumMessage(received: string): string
  {
    EnumMessagePrefix + received + "'"
  }

  const EnumMessagePrefix := "Invalid enum value. Expected 'daily' | 'weekly' | 'bi-weekly' | 'monthly' | 'custom', received '"

  function FrequencyIssues(path: Path, o: Option<string>): (r: seq<Issue>)
    ensures r == [] <==> (o.Some? ==> o.value in FrequencyOptions)
    ensures forall x :: x in r ==> x.path == path
  {
    if o.Some? && ParseFrequency(o.value).None? then [Issue(path, InvalidEnumValue, EnumMessage(o.value))]
    else []
  }

  // ------------------------------------------- the combined onboarding schema

  /** A chore as the onboarding payload carries it, before validation. */
  datatype RawChore = RawChore(
    name: Option<string>, description: Option<string>, dueAt: Option<string>,
    frequency: Option<string>, customFrequency: Option<string>)

  /** The submitted `fields` once `areas` and `chores` are parsed from JSON. */
  datatype RawFields = RawFields(householdName: string, areas: Rec<seq<string>>, chores: seq<RawChore>)

  /** A validated chore: the frequency is one of the five options. */
  datatype Chore = Chore(
    name: Option<string>, description: Option<string>, dueAt: Option<string>,
    frequency: Option<Frequency>, customFrequency: Option<string>)

  /** `InsertHouseholdsAreasAndChores`, the data `safeParse` returns on success. */
  datatype Onboarding = Onboarding(householdName: string, areas: Rec<seq<string>>, chores: seq<Chore>)

  const HouseholdNameField := Name("householdName")
  const AreasField := Name("areas")
  const ChoresField := Name("chores")
  const NameField := Name("name")
  const DescriptionField := Name("description")
  const FrequencyField := Name("frequency")

  /** An area key and each chore name listed under it are names. */
  predicate AreaOk(area: (string, seq<string>))
  {
    IsName(area.0) && forall j :: 0 <= j < |area.1| ==> IsName(area.1[j])
  }

  predicate AreasOk(areas: Rec<seq<string>>)
  {
    forall i :: 0 <= i < |areas| ==> AreaOk(areas[i])
  }

  predicate ChoreOk(c: RawChore)
  {
    && (c.name.Some? ==> IsName(c.name.value))
    && (c.description.Some? ==> Utf16Length(c.description.value) <= 255)
    && (c.frequency.Some? ==> c.frequency.value in FrequencyOptions)
  }

  predicate ChoresOk(cs: seq<RawChore>)
  {
    forall i :: 0 <= i < |cs| ==> ChoreOk(cs[i])
  }

  /** What `insertHouseholdsAreasAndChoresSchema` accepts. */
  predicate OnboardingOk(f: RawFields)
  {
    IsName(f.householdName) && AreasOk(f.areas) && ChoresOk(f.chores)
  }

  /**
   * zod checks the elements of an array, and the entries of a record, one
   * after another and collects their issues in that order: `parts[j]` holds
   * element `j`'s issues.
   */
  function Concat(parts: seq<seq<Issue>>): (r: seq<Issue>)
    ensures r == [] <==> forall j :: 0 <= j < |parts| ==> parts[j] == []
  {
    if parts == [] then []
    else
      var n := |parts| - 1;
      assert forall j :: 0 <= j < n ==> parts[..n][j] == parts[j];
      Concat(parts[..n]) + parts[n]
  }

  /** Every collected issue is an issue of one of the elements. */
  lemma {:induction false} ConcatMembers(parts: seq<seq<Issue>>)
    ensures forall x :: x in Concat(parts) ==> exists j :: 0 <= j < |parts| && x in parts[j]
  {
    if parts != [] {
      var n := |parts| - 1;
      ConcatMembers(parts[..n]);
      assert Concat(parts) == Concat(parts[..n]) + parts[n];
      forall x: Issue | x in Concat(parts[..n]) + parts[n]
        ensures exists j :: 0 <= j < |parts| && x in parts[j]
      {
        if x in parts[n] {
          assert 0 <= n < |parts| && x in parts[n];
        } else {
          var j :| 0 <= j < n && x in parts[..n][j];
          assert parts[..n][j] == parts[j];
        }
      }
    }
  }

  /** A path is reported among the collected issues exactly when some element reports it. */
  lemma {:induction false} ConcatReported(parts: seq<seq<Issue>>, q: Path)
    ensures ReportedAt(Concat(parts), q) <==> exists j :: 0 <= j < |parts| && ReportedAt(parts[j], q)
  {
    if parts != [] {
      var n := |parts| - 1;
      ConcatReported(parts[..n], q);
      assert Concat(parts) == Concat(parts[..n]) + parts[n];
      ReportedConcat(Concat(parts[..n]), parts[n], q);
      if exists j :: 0 <= j < |parts| && ReportedAt(parts[j], q) {
        var j :| 0 <= j < |parts| && ReportedAt(parts[j], q);
        if j < n {
          assert parts[..n][j] == parts[j];
        }
      }
      if exists j :: 0 <= j < n && ReportedAt(parts[..n][j], q) {
        var j :| 0 <= j < n && ReportedAt(parts[..n][j], q);
        assert parts[..n][j] == parts[j];
      }
    }
  }

  /** When no other element reports `q`, element `i` alone decides it. */
  lemma OnlyPart(parts: seq<seq<Issue>>, i: nat, q: Path)
    requires i < |parts|
    requires forall j :: 0 <= j < |parts| && j != i ==> !ReportedAt(parts[j], q)
    ensures ReportedAt(Concat(parts), q) <==> ReportedAt(parts[i], q)
  {
    ConcatReported(parts, q);
  }

  /** The elements of a string array, element `j` checked at `path + [Index(j)]`. */
  function NameParts(path: Path, names: seq<string>): (parts: seq<seq<Issue>>)
    ensures |parts| == |names|
    ensures forall j :: 0 <= j < |names| ==> parts[j] == NameIssues(path + [Index(j)], names[j])
  {
    seq(|names|, j requires 0 <= j < |names| => NameIssues(path + [Index(j)], names[j]))
  }

  /** `name.array()`: every element must be a name. */
  function NameListIssues(path: Path, names: seq<string>): (r: seq<Issue>)
    ensures r == [] <==> forall j :: 0 <= j < |names| ==> IsName(names[j])
  {
    Concat(NameParts(path, names))
  }

  /** Element `j`'s issues lie at `path + [Index(j)]`. */
  lemma NameListPaths(path: Path, names: seq<string>)
    ensures forall x :: x in NameListIssues(path, names) ==>
      |x.path| == |path| + 1 && x.path[..|path|] == path &&
      x.path[|path|].Index? && x.path[|path|].index < |names|
  {
    var parts := NameParts(path, names);
    ConcatMembers(parts);
    forall x | x in Concat(parts)
      ensures |x.path| == |path| + 1 && x.path[..|path|] == path
      ensures x.path[|path|].Index? && x.path[|path|].index < |names|
    {
      var j :| 0 <= j < |parts| && x in parts[j];
      assert x.path == path + [Index(j)];
    }
  }

  /** A record entry: the key is checked at `[areas, key]`, its list under it. */
  function EntryIssues(area: (string, seq<string>)): (r: seq<Issue>)
    ensures r == [] <==> AreaOk(area)
  {
    var p := [AreasField, Name(area.0)];
    NameIssues(p, area.0) + NameListIssues(p, area.1)
  }

  /** An entry's issues lie at or under `[areas, key]`. */
  lemma EntryPaths(area: (string, seq<string>))
    ensures forall x :: x in EntryIssues(area) ==> 2 <= |x.path| && x.path[..2] == [AreasField, Name(area.0)]
  {
    var p := [AreasField, Name(area.0)];
    var key, list := NameIssues(p, area.0), NameListIssues(p, area.1);
    NameListPaths(p, area.1);
    forall x: Issue | x in key + list ensures 2 <= |x.path| && x.path[..2] == p {
      if x !in key {
        assert x in list;
      }
    }
  }

  /** The entries of the areas record, in key order. */
  function EntryParts(areas: Rec<seq<string>>): (parts: seq<seq<Issue>>)
    ensures |parts| == |areas|
    ensures forall m :: 0 <= m < |areas| ==> parts[m] == EntryIssues(areas[m])
  {
    seq(|areas|, m requires 0 <= m < |areas| => EntryIssues(areas[m]))
  }

  /** `z.record(name, name.array())`: every entry, in key order. */
  function AreasIssues(areas: Rec<seq<string>>): (r: seq<Issue>)
    ensures r == [] <==> AreasOk(areas)
  {
    Concat(EntryParts(areas))
  }

  /** The record's issues lie under `areas`, each under its own key. */
  lemma AreasPaths(areas: Rec<seq<string>>)
    ensures forall x :: x in AreasIssues(areas) ==> 2 <= |x.path| && x.path[0] == AreasField
  {
    var parts := EntryParts(areas);
    ConcatMembers(parts);
    forall x | x in Concat(parts) ensures 2 <= |x.path| && x.path[0] == AreasField {
      var m :| 0 <= m < |parts| && x in parts[m];
      EntryPaths(areas[m]);
      assert x.path[0] == x.path[..2][0];
    }
  }

  function ChoreFieldPath(i: nat, field: Segment): (p: Path)
    ensures |p| == 3 && p[0] == ChoresField && p[1] == Index(i) && p[2] == field
  {
    [ChoresField, Index(i), field]
  }

  /** One chore object: `name`, `description` and `frequency` under `[chores, i]`. */
  function ChoreIssues(i: nat, c: RawChore): (r: seq<Issue>)
    ensures r == [] <==> ChoreOk(c)
  {
    (if c.name.Some? then ChoreNameIssues(ChoreFieldPath(i, NameField), c.name.value) else [])
    + (if c.description.Some? then DescriptionIssues(ChoreFieldPath(i, DescriptionField), c.description.value) else [])
    + FrequencyIssues(ChoreFieldPath(i, FrequencyField), c.frequency)
  }

  /** Chore `i`'s issues lie at `[chores, i, field]`. */
  lemma ChorePaths(i: nat, c: RawChore)
    ensures forall x :: x in ChoreIssues(i, c) ==> |x.path| == 3 && x.path[0] == ChoresField && x.path[1] == Index(i)
  {
    var name := if c.name.Some? then ChoreNameIssues(ChoreFieldPath(i, NameField), c.name.value) else [];
    var description :=
      if c.description.Some? then DescriptionIssues(ChoreFieldPath(i, DescriptionField), c.description.value) else [];
    var frequency := FrequencyIssues(ChoreFieldPath(i, FrequencyField), c.frequency);
    assert ChoreIssues(i, c) == name + description + frequency;
    forall x: Issue | x in name + description + frequency
      ensures |x.path| == 3 && x.path[0] == ChoresField && x.path[1] == Index(i)
    {
      var p := if x in name then ChoreFieldPath(i, NameField)
               else if x in description then ChoreFieldPath(i, DescriptionField)
               else ChoreFieldPath(i, FrequencyField);
      assert x.path == p;
    }
  }

  /** The chore objects of the array, chore `i` checked under `[chores, i]`. */
  function ChoreParts(cs: seq<RawChore>): (parts: seq<seq<Issue>>)
    ensures |parts| == |cs|
    ensures forall i :: 0 <= i < |cs| ==> parts[i] == ChoreIssues(i, cs[i])
  {
    seq(|cs|, i requires 0 <= i < |cs| => ChoreIssues(i, cs[i]))
  }

  /** `chores: z.array(choreSchema)`: every chore object, in order. */
  function ChoresIssues(cs: seq<RawChore>): (r: seq<Issue>)
    ensures r == [] <==> ChoresOk(cs)
  {
    Concat(ChoreParts(cs))
  }

  /** Chore `i`'s issues lie under `[chores, i]`, for `i` an index of the list. */
  lemma ChoresPaths(cs: seq<RawChore>)
    ensures forall x :: x in ChoresIssues(cs) ==>
      |x.path| == 3 && x.path[0] == ChoresField && x.path[1].Index? && x.path[1].index < |cs|
  {
    var parts := ChoreParts(cs);
    ConcatMembers(parts);
    forall x | x in Concat(parts)
      ensures |x.path| == 3 && x.path[0] == ChoresField && x.path[1].Index? && x.path[1].index < |cs|
    {
      var i :| 0 <= i < |parts| && x in parts[i];
      ChorePaths(i, cs[i]);
    }
  }

  /** The issues of the whole payload, in the schema's field order. */
  function OnboardingIssues(f: RawFields): (r: seq<Issue>)
    ensures r == [] <==> OnboardingOk(f)
  {
    NameIssues([HouseholdNameField], f.householdName) + AreasIssues(f.areas) + ChoresIssues(f.chores)
  }

  function ParseChore(c: RawChore): Chore
  {
    Chore(c.name, c.description, c.dueAt,
          if c.frequency.Some? then ParseFrequency(c.frequency.value) else None,
          c.customFrequency)
  }

  /** The validated chores: every field carried over, the frequency parsed. */
  function ParseChores(cs: seq<RawChore>): (r: seq<Chore>)
    requires ChoresOk(cs)
    ensures |r| == |cs|
    ensures forall i :: 0 <= i < |cs| ==>
      && r[i].name == cs[i].name
      && r[i].description == cs[i].description
      && (r[i].frequency.Some? <==> cs[i].frequency.Some?)
      && (r[i].frequency.Some? ==> FrequencyName(r[i].frequency.value) == cs[i].frequency.value)
  {
    var r := seq(|cs|, i requires 0 <= i < |cs| => ParseChore(cs[i]));
    assert forall i :: 0 <= i < |cs| ==>
      && (r[i].frequency.Some? <==> cs[i].frequency.Some?)
      && (r[i].frequency.Some? ==> FrequencyName(r[i].frequency.value) == cs[i].frequency.value) by {
      forall i | 0 <= i < |cs|
        ensures r[i].frequency.Some? <==> cs[i].frequency.Some?
        ensures r[i].frequency.Some? ==> FrequencyName(r[i].frequency.value) == cs[i].frequency.value
      {
        assert ChoreOk(cs[i]);
      }
    }
    r
  }

  /** `insertHouseholdsAreasAndChoresSchema.safeParse(fields)`. */
  function ValidateOnboarding(f: RawFields): (r: Result<Onboarding, seq<Issue>>)
    ensures r.Success? <==> OnboardingOk(f)
    ensures r.Failure? ==> r.error != [] && r.error == OnboardingIssues(f)
    ensures r.Success? ==>
      && r.value.householdName == f.householdName
      && r.value.areas == f.areas
      && |r.value.chores| == |f.chores|
      && forall i :: 0 <= i < |f.chores| ==>
           && r.value.chores[i].name == f.chores[i].name
           && r.value.chores[i].description == f.chores[i].description
           && (r.value.chores[i].frequency.Some? <==> f.chores[i].frequency.Some?)
           && (r.value.chores[i].frequency.Some? ==>
                 FrequencyName(r.value.chores[i].frequency.value) == f.chores[i].frequency.value)
  {
    var xs := OnboardingIssues(f);
    if xs != [] then Failure(xs)
    else Success(Onboarding(f.householdName, f.areas, ParseChores(f.chores)))
  }

  // ------------------------------------ every failing field is reported

  lemma Unreported(xs: seq<Issue>, p: Path)
    requires forall x :: x in xs ==> x.path != p
    ensures !ReportedAt(xs, p)
  {
    forall i | 0 <= i < |xs| ensures xs[i].path != p {
      assert xs[i] in xs;
    }
  }

  lemma OnlyFront(a: seq<Issue>, b: seq<Issue>, p: Path)
    requires forall x :: x in b ==> x.path != p
    ensures ReportedAt(a + b, p) <==> ReportedAt(a, p)
  {
    ReportedConcat(a, b, p);
    Unreported(b, p);
  }

  lemma OnlyBack(a: seq<Issue>, b: seq<Issue>, p: Path)
    requires forall x :: x in a ==> x.path != p
    ensures ReportedAt(a + b, p) <==> ReportedAt(b, p)
  {
    ReportedConcat(a, b, p);
    Unreported(a, p);
  }

  lemma ReportedIffAny(xs: seq<Issue>, p: Path)
    requires forall x :: x in xs ==> x.path == p
    ensures ReportedAt(xs, p) <==> xs != []
  {
    if xs != [] {
      assert xs[0] in xs;
    }
  }

  /** Element `j` of a string array is reported at `path + [Index(j)]` exactly when it is not a name. */
  lemma NameListReported(path: Path, names: seq<string>, j: nat)
    requires j < |names|
    ensures ReportedAt(NameListIssues(path, names), path + [Index(j)]) <==> !IsName(names[j])
  {
    var parts, q := NameParts(path, names), path + [Index(j)];
    forall k | 0 <= k < |parts| && k != j ensures !ReportedAt(parts[k], q) {
      assert (path + [Index(k)])[|path|] != q[|path|];
      Unreported(parts[k], q);
    }
    OnlyPart(parts, j, q);
    ReportedIffAny(parts[j], q);
  }

  function AreaPath(key: string): Path
  {
    [AreasField, Name(key)]
  }

  lemma EntryIssuesElsewhere(area: (string, seq<string>), k: string, tail: Path)
    requires area.0 != k
    ensures forall x :: x in EntryIssues(area) ==> x.path != AreaPath(k) + tail
  {
    EntryPaths(area);
    forall x | x in EntryIssues(area) ensures x.path != AreaPath(k) + tail {
      assert x.path[1] == x.path[..2][1] == Name(area.0);
      assert (AreaPath(k) + tail)[1] == Name(k);
    }
  }

  /**
   * Within one entry, the key is reported at `[areas, key]` exactly when it is
   * not a name, and chore name `j` at `[areas, key, j]` exactly when it is not.
   */
  lemma EntryReported(area: (string, seq<string>), j: nat)
    ensures ReportedAt(EntryIssues(area), AreaPath(area.0)) <==> !IsName(area.0)
    ensures j < |area.1| ==>
      (ReportedAt(EntryIssues(area), AreaPath(area.0) + [Index(j)]) <==> !IsName(area.1[j]))
  {
    var p := AreaPath(area.0);
    var key, list := NameIssues(p, area.0), NameListIssues(p, area.1);
    assert EntryIssues(area) == key + list;
    NameListPaths(p, area.1);
    OnlyFront(key, list, p);
    ReportedIffAny(key, p);
    if j < |area.1| {
      OnlyBack(key, list, p + [Index(j)]);
      NameListReported(p, area.1, j);
    }
  }

  /** Area `i`: its key and chore names are reported exactly where its own entry reports them. */
  lemma AreaReported(areas: Rec<seq<string>>, i: nat, tail: Path)
    requires DistinctKeys(areas) && i < |areas|
    ensures ReportedAt(AreasIssues(areas), AreaPath(areas[i].0) + tail)
            <==> ReportedAt(EntryIssues(areas[i]), AreaPath(areas[i].0) + tail)
  {
    var parts, q := EntryParts(areas), AreaPath(areas[i].0) + tail;
    forall m | 0 <= m < |parts| && m != i ensures !ReportedAt(parts[m], q) {
      EntryIssuesElsewhere(areas[m], areas[i].0, tail);
      Unreported(parts[m], q);
    }
    OnlyPart(parts, i, q);
  }

  /** Three runs of issues at three different paths: each path is reported by its own run. */
  lemma ThreeRuns(a: seq<Issue>, b: seq<Issue>, f: seq<Issue>, pa: Path, pb: Path, pf: Path)
    requires pa != pb && pa != pf && pb != pf
    requires forall x :: x in a ==> x.path == pa
    requires forall x :: x in b ==> x.path == pb
    requires forall x :: x in f ==> x.path == pf
    ensures ReportedAt(a + b + f, pa) <==> a != []
    ensures ReportedAt(a + b + f, pb) <==> b != []
    ensures ReportedAt(a + b + f, pf) <==> f != []
  {
    ReportedConcat(a + b, f, pa);
    ReportedConcat(a, b, pa);
    ReportedConcat(a + b, f, pb);
    ReportedConcat(a, b, pb);
    ReportedConcat(a + b, f, pf);
    ReportedConcat(a, b, pf);
    ReportedIffAny(a, pa);
    Unreported(a, pb);
    Unreported(a, pf);
    ReportedIffAny(b, pb);
    Unreported(b, pa);
    Unreported(b, pf);
    ReportedIffAny(f, pf);
    Unreported(f, pa);
    Unreported(f, pb);
  }

  /** Within one chore object, each field is reported exactly when it fails. */
  lemma ChoreFieldsReported(i: nat, c: RawChore)
    ensures ReportedAt(ChoreIssues(i, c), ChoreFieldPath(i, NameField))
            <==> c.name.Some? && !IsName(c.name.value)
    ensures ReportedAt(ChoreIssues(i, c), ChoreFieldPath(i, DescriptionField))
            <==> c.description.Some? && Utf16Length(c.description.value) > 255
    ensures ReportedAt(ChoreIssues(i, c), ChoreFieldPath(i, FrequencyField))
            <==> c.frequency.Some? && c.frequency.value !in FrequencyOptions
  {
    var pn, pd, pf := ChoreFieldPath(i, NameField), ChoreFieldPath(i, DescriptionField), ChoreFieldPath(i, FrequencyField);
    var a := if c.name.Some? then ChoreNameIssues(pn, c.name.value) else [];
    var b := if c.description.Some? then DescriptionIssues(pd, c.description.value) else [];
    var f := FrequencyIssues(pf, c.frequency);
    assert pn != pd && pn != pf && pd != pf by {
      assert pn[2] == NameField && pd[2] == DescriptionField && pf[2] == FrequencyField;
    }
    ThreeRuns(a, b, f, pn, pd, pf);
  }

  lemma ChoreIssuesElsewhere(n: nat, c: RawChore, i: nat, field: Segment)
    requires n != i
    ensures forall x :: x in ChoreIssues(n, c) ==> x.path != ChoreFieldPath(i, field)
  {
    ChorePaths(n, c);
    forall x | x in ChoreIssues(n, c) ensures x.path != ChoreFieldPath(i, field) {
      assert x.path[1] == Index(n);
    }
  }

  /** Each field of chore `i` is reported at `[chores, i, field]` exactly when that chore's own check reports it. */
  lemma ChoreReported(cs: seq<RawChore>, i: nat, field: Segment)
    requires i < |cs|
    ensures ReportedAt(ChoresIssues(cs), ChoreFieldPath(i, field))
            <==> ReportedAt(ChoreIssues(i, cs[i]), ChoreFieldPath(i, field))
  {
    var parts, q := ChoreParts(cs), ChoreFieldPath(i, field);
    forall j | 0 <= j < |parts| && j != i ensures !ReportedAt(parts[j], q) {
      ChoreIssuesElsewhere(j, cs[j], i, field);
      Unreported(parts[j], q);
    }
    OnlyPart(parts, i, q);
  }

  // ---------------------------------------- the payload as a whole

  lemma {:induction false} PayloadSplit(f: RawFields, q: Path)
    requires |q| >= 1
    ensures q[0] == HouseholdNameField ==>
      (ReportedAt(OnboardingIssues(f), q) <==> ReportedAt(NameIssues([HouseholdNameField], f.householdName), q))
    ensures q[0] == AreasField ==>
      (ReportedAt(OnboardingIssues(f), q) <==> ReportedAt(AreasIssues(f.areas), q))
    ensures q[0] == ChoresField ==>
      (ReportedAt(OnboardingIssues(f), q) <==> ReportedAt(ChoresIssues(f.chores), q))
  {
    var h, a, c := NameIssues([HouseholdNameField], f.householdName), AreasIssues(f.areas), ChoresIssues(f.chores);
    assert OnboardingIssues(f) == h + a + c;
    ReportedConcat(h + a, c, q);
    ReportedConcat(h, a, q);
    if q[0] != HouseholdNameField {
      Unreported(h, q);
    }
    if q[0] != AreasField {
      AreasPaths(f.areas);
      forall x | x in a ensures x.path != q {
        assert x.path[0] == AreasField;
      }
      Unreported(a, q);
    }
    if q[0] != ChoresField {
      ChoresPaths(f.chores);
      forall x | x in c ensures x.path != q {
        assert x.path[0] == ChoresField;
      }
      Unreported(c, q);
    }
  }

  /** The household name is reported at `householdName` exactly when its length is outside [1, 50]. */
  lemma HouseholdNameReported(f: RawFields)
    ensures ReportedAt(OnboardingIssues(f), [HouseholdNameField]) <==> !(1 <= Utf16Length(f.householdName) <= 50)
  {
    PayloadSplit(f, [HouseholdNameField]);
    ReportedIffAny(NameIssues([HouseholdNameField], f.householdName), [HouseholdNameField]);
  }

  /** Area key `i` is reported at `[areas, key]` exactly when its length is outside [1, 50]. */
  lemma AreaKeyReported(f: RawFields, i: nat)
    requires DistinctKeys(f.areas) && i < |f.areas|
    ensures ReportedAt(OnboardingIssues(f), AreaPath(f.areas[i].0)) <==> !(1 <= Utf16Length(f.areas[i].0) <= 50)
  {
    var q := AreaPath(f.areas[i].0);
    PayloadSplit(f, q);
    assert q + [] == q;
    AreaReported(f.areas, i, []);
    EntryReported(f.areas[i], 0);
  }

  /** Chore name `j` of area `i` is reported at `[areas, key, j]` exactly when its length is outside [1, 50]. */
  lemma AreaChoreNameReported(f: RawFields, i: nat, j: nat)
    requires DistinctKeys(f.areas) && i < |f.areas| && j < |f.areas[i].1|
    ensures ReportedAt(OnboardingIssues(f), AreaPath(f.areas[i].0) + [Index(j)])
            <==> !(1 <= Utf16Length(f.areas[i].1[j]) <= 50)
  {
    var q := AreaPath(f.areas[i].0) + [Index(j)];
    assert q[0] == AreasField;
    PayloadSplit(f, q);
    AreaReported(f.areas, i, [Index(j)]);
    EntryReported(f.areas[i], j);
  }

  /** Each field of chore `i` is reported at `[chores, i, field]` exactly when it fails its rule. */
  lemma ChoreFieldReported(f: RawFields, i: nat)
    requires i < |f.chores|
    ensures ReportedAt(OnboardingIssues(f), ChoreFieldPath(i, NameField))
            <==> f.chores[i].name.Some? && !(1 <= Utf16Length(f.chores[i].name.value) <= 50)
    ensures ReportedAt(OnboardingIssues(f), ChoreFieldPath(i, DescriptionField))
            <==> f.chores[i].description.Some? && Utf16Length(f.chores[i].description.value) > 255
    ensures ReportedAt(OnboardingIssues(f), ChoreFieldPath(i, FrequencyField))
            <==> f.chores[i].frequency.Some? && f.chores[i].frequency.value !in FrequencyOptions
  {
    PayloadSplit(f, ChoreFieldPath(i, NameField));
    PayloadSplit(f, ChoreFieldPath(i, DescriptionField));
    PayloadSplit(f, ChoreFieldPath(i, FrequencyField));
    ChoreReported(f.chores, i, NameField);
    ChoreReported(f.chores, i, DescriptionField);
    ChoreReported(f.chores, i, FrequencyField);
    ChoreFieldsReported(i, f.chores[i]);
  }

  // ------------------------------------------------------------- flatten

  /** Some issue's path starts with `s`. */
  predicate HasHead(xs: seq<Issue>, s: Segment)
  {
    exists i :: 0 <= i < |xs| && xs[i].path != [] && xs[i].path[0] == s
  }

  /** The messages of the issues whose path starts with `s`, in order. */
  function MessagesUnder(xs: seq<Issue>, s: Segment): seq<string>
  {
    if xs == [] then []
    else (if xs[0].path != [] && xs[0].path[0] == s then [xs[0].message] else []) + MessagesUnder(xs[1..], s)
  }

  lemma {:induction false} MessagesUnderSnoc(xs: seq<Issue>, x: Issue, s: Segment)
    ensures MessagesUnder(xs + [x], s)
            == MessagesUnder(xs, s) + (if x.path != [] && x.path[0] == s then [x.message] else [])
  {
    if xs != [] {
      assert (xs + [x])[1..] == xs[1..] + [x];
      MessagesUnderSnoc(xs[1..], x, s);
    }
  }

  /** `error.flatten()`: messages grouped by the first key of their path. */
  datatype FlatErrors = FlatErrors(formErrors: seq<string>, fieldErrors: map<Segment, seq<string>>)

  /** The messages recorded so far under `s`. */
  function Under(e: FlatErrors, s: Segment): seq<string>
  {
    if s in e.fieldErrors then e.fieldErrors[s] else []
  }

  /** Whether issue `x` is filed under key `s`. */
  predicate FiledUnder(x: Issue, s: Segment)
  {
    x.path != [] && x.path[0] == s
  }

  /** Files one more issue: under its first key, or among the form errors when its path is empty. */
  function AddIssue(e: FlatErrors, x: Issue): (e': FlatErrors)
    ensures forall s :: s in e'.fieldErrors <==> s in e.fieldErrors || FiledUnder(x, s)
    ensures forall s :: Under(e', s) == Under(e, s) + (if FiledUnder(x, s) then [x.message] else [])
    ensures e'.formErrors == e.formErrors + (if x.path == [] then [x.message] else [])
  {
    if x.path == [] then e.(formErrors := e.formErrors + [x.message])
    else e.(fieldErrors := e.fieldErrors[x.path[0] := Under(e, x.path[0]) + [x.message]])
  }

  lemma {:induction false} HasHeadSnoc(xs: seq<Issue>, x: Issue, s: Segment)
    ensures HasHead(xs + [x], s) <==> HasHead(xs, s) || FiledUnder(x, s)
  {
    HasHeadConcat(xs, [x], s);
    assert HasHead([x], s) <==> FiledUnder(x, s) by {
      assert [x][0] == x;
    }
  }

  function Flatten(xs: seq<Issue>): (e: FlatErrors)
    ensures forall s :: s in e.fieldErrors <==> HasHead(xs, s)
    ensures forall s :: Under(e, s) == MessagesUnder(xs, s)
    ensures (forall x :: x in xs ==> x.path != []) ==> e.formErrors == []
  {
    if xs == [] then FlatErrors([], map[])
    else
      var n := |xs| - 1;
      assert xs == xs[..n] + [xs[n]];
      assert forall y :: y in xs[..n] ==> y in xs;
      forall s ensures MessagesUnder(xs, s) == MessagesUnder(xs[..n], s)
                       + (if FiledUnder(xs[n], s) then [xs[n].message] else []) {
        MessagesUnderSnoc(xs[..n], xs[n], s);
      }
      forall s ensures HasHead(xs, s) <==> HasHead(xs[..n], s) || FiledUnder(xs[n], s) {
        HasHeadSnoc(xs[..n], xs[n], s);
      }
      AddIssue(Flatten(xs[..n]), xs[n])
  }

  lemma {:induction false} MessagesUnderEmpty(xs: seq<Issue>, s: Segment)
    requires !HasHead(xs, s)
    ensures MessagesUnder(xs, s) == []
  {
    if xs != [] {
      forall i | 0 <= i < |xs[1..]| ensures !FiledUnder(xs[1..][i], s) {
        assert xs[1..][i] == xs[i + 1];
      }
      MessagesUnderEmpty(xs[1..], s);
    }
  }

  lemma HasHeadConcat(a: seq<Issue>, b: seq<Issue>, s: Segment)
    ensures HasHead(a + b, s) <==> HasHead(a, s) || HasHead(b, s)
  {
    if HasHead(a + b, s) {
      var i :| 0 <= i < |a + b| && (a + b)[i].path != [] && (a + b)[i].path[0] == s;
      if i >= |a| {
        assert b[i - |a|] == (a + b)[i];
      }
    }
    if HasHead(a, s) {
      var i :| 0 <= i < |a| && a[i].path != [] && a[i].path[0] == s;
      assert (a + b)[i] == a[i];
    }
    if HasHead(b, s) {
      var i :| 0 <= i < |b| && b[i].path != [] && b[i].path[0] == s;
      assert (a + b)[|a| + i] == b[i];
    }
  }

  /** A run whose paths all start with `s` has head `t` exactly when it is non-empty and `t == s`. */
  lemma HeadsOfRun(xs: seq<Issue>, s: Segment, t: Segment)
    requires forall x :: x in xs ==> x.path != [] && x.path[0] == s
    ensures HasHead(xs, t) <==> xs != [] && t == s
  {
    if xs != [] {
      assert xs[0] in xs;
    }
    if HasHead(xs, t) {
      var i :| 0 <= i < |xs| && xs[i].path != [] && xs[i].path[0] == t;
      assert xs[i] in xs;
    }
  }

  /** Top-level field `t` of the payload fails its rules. */
  predicate FieldFails(f: RawFields, t: Segment)
  {
    (t == HouseholdNameField && !IsName(f.householdName)) ||
    (t == AreasField && !AreasOk(f.areas)) ||
    (t == ChoresField && !ChoresOk(f.chores))
  }

  /** The payload's issues are filed under exactly the top-level fields that fail. */
  lemma PayloadHeads(f: RawFields, t: Segment)
    ensures HasHead(OnboardingIssues(f), t) <==> FieldFails(f, t)
  {
    var h, a, c := NameIssues([HouseholdNameField], f.householdName), AreasIssues(f.areas), ChoresIssues(f.chores);
    assert OnboardingIssues(f) == h + a + c;
    HasHeadConcat(h + a, c, t);
    HasHeadConcat(h, a, t);
    AreasPaths(f.areas);
    ChoresPaths(f.chores);
    HeadsOfRun(h, HouseholdNameField, t);
    HeadsOfRun(a, AreasField, t);
    HeadsOfRun(c, ChoresField, t);
  }

  lemma PayloadPaths(f: RawFields)
    ensures forall x :: x in OnboardingIssues(f) ==> x.path != []
  {
    var h, a, c := NameIssues([HouseholdNameField], f.householdName), AreasIssues(f.areas), ChoresIssues(f.chores);
    assert OnboardingIssues(f) == h + a + c;
    AreasPaths(f.areas);
    ChoresPaths(f.chores);
    forall x | x in OnboardingIssues(f) ensures x.path != [] {
      assert x in h || x in a || x in c;
    }
  }

  /**
   * The flattened errors of the payload have no form errors, and list
   * `householdName`, `areas` and `chores` exactly when that field fails
   * its rules.
   */
  lemma FlattenedFields(f: RawFields)
    ensures Flatten(OnboardingIssues(f)).formErrors == []
    ensures forall t :: t in Flatten(OnboardingIssues(f)).fieldErrors <==> FieldFails(f, t)
  {
    PayloadPaths(f);
    forall t ensures HasHead(OnboardingIssues(f), t) <==> FieldFails(f, t) {
      PayloadHeads(f, t);
    }
  }

  /** When only the household name fails, the flattened errors hold its messages under its key and nothing else. */
  lemma HouseholdNameOnly(f: RawFields)
    requires !IsName(f.householdName) && AreasOk(f.areas) && ChoresOk(f.chores)
    ensures Flatten(OnboardingIssues(f)).fieldErrors.Keys == {HouseholdNameField}
    ensures Under(Flatten(OnboardingIssues(f)), HouseholdNameField)
            == [if f.householdName == [] then NameTooShort else NameTooLong]
  {
    var n := NameIssues([HouseholdNameField], f.householdName);
    assert AreasIssues(f.areas) == [] && ChoresIssues(f.chores) == [];
    assert OnboardingIssues(f) == n;
    var e := Flatten(n);
    FlattenedFields(f);
    assert forall t :: FieldFails(f, t) <==> t == HouseholdNameField;
    OnlyKey(e, HouseholdNameField);
    NameBoundaries([HouseholdNameField], f.householdName);
    var x := n[0];
    assert n == [] + [x];
    MessagesUnderSnoc([], x, HouseholdNameField);
  }

  lemma OnlyKey(e: FlatErrors, s: Segment)
    requires forall t :: t in e.fieldErrors <==> t == s
    ensures e.fieldErrors.Keys == {s}
  {
  }

  // ------------------------------------------------ length boundaries

  /** Length 0, and every length from 51 up, is rejected with exactly one issue carrying the schema's message. */
  lemma NameBoundaries(p: Path, s: string)
    ensures Utf16Length(s) == 0 ==> NameIssues(p, s) == [Issue(p, TooSmall(1), NameTooShort)]
    ensures Utf16Length(s) > 50 ==> NameIssues(p, s) == [Issue(p, TooBig(50), NameTooLong)]
    ensures Utf16Length(s) == 1 || Utf16Length(s) == 50 ==> NameIssues(p, s) == []
  {
    assert NameChecks[1..] == [Max(50, NameTooLong)];
    assert NameChecks[1..][1..] == [];
    assert StringIssues(p, s, NameChecks[1..][1..]) == [];
    if Utf16Length(s) > 50 {
      assert StringIssues(p, s, NameChecks[1..]) == [Issue(p, TooBig(50), NameTooLong)];
      assert StringIssues(p, s, NameChecks) == [] + StringIssues(p, s, NameChecks[1..]);
    }
  }

  /**
   * Twenty-six house emoji are twenty-six characters but fifty-two code
   * units, so a name made of them is rejected as too long.
   */
  lemma AstralNameRejected(p: Path)
    ensures var s := seq(26, _ => '\U{1F3E0}');
      |s| == 26 && NameIssues(p, s) == [Issue(p, TooBig(50), NameTooLong)]
  {
    var s := seq(26, _ => '\U{1F3E0}');
    RepeatedLength(26, '\U{1F3E0}');
    NameBoundaries(p, s);
  }

  /**
   * A description over 255 code units is rejected by the combined schema
   * with a message that names 50 as the limit.
   */
  lemma DescriptionMessage(p: Path, d: string)
    requires Utf16Length(d) > 255
    ensures DescriptionIssues(p, d) == [Issue(p, TooBig(255), "Description must be less than 50 characters")]
  {
    assert DescriptionChecks[1..] == [];
  }

  /** The combined schema accepts descriptions that `insertChoreSchema` rejects: lengths 51 to 255. */
  lemma DescriptionLimitsDiffer(p: Path, d: string)
    ensures (DescriptionIssues(p, d) == [] && TableDescriptionIssues(p, d) != []) <==> 50 < Utf16Length(d) <= 255
  {
  }

  // ------------------------------------------------ the table insert schemas

  const IdField := Name("id")
  const PasswordField := Name("password")
  const ConfirmPasswordField := Name("confirmPassword")

  /** What `insertHouseholdSchema` reads: `id` made optional, `name` required. */
  datatype HouseholdInput = HouseholdInput(id: Option<string>, name: string)

  /** `insertHouseholdSchema`: only `name` is checked, whether or not an `id` is given. */
  function HouseholdIssues(h: HouseholdInput): (r: seq<Issue>)
    ensures r == [] <==> 1 <= Utf16Length(h.name) <= 50
    ensures forall x :: x in r ==> x.path == [NameField]
  {
    NameIssues([NameField], h.name)
  }

  /** What `insertAreaSchema` reads: `householdId` is a nullable column, so optional. */
  datatype AreaInput = AreaInput(id: Option<string>, name: string, householdId: Option<string>)

  /** `insertAreaSchema`: only `name` is checked. */
  function AreaInputIssues(a: AreaInput): (r: seq<Issue>)
    ensures r == [] <==> 1 <= Utf16Length(a.name) <= 50
    ensures forall x :: x in r ==> x.path == [NameField]
  {
    NameIssues([NameField], a.name)
  }

  /** What `insertChoreSchema` reads; `frequency` is the table's enum column. */
  datatype ChoreInput = ChoreInput(
    id: Option<string>, name: string, description: Option<string>, dueAt: Option<string>,
    frequency: Option<string>, customFrequency: Option<string>)

  /** `insertChoreSchema`: a required name, a description of at most 50, and the enum. */
  function ChoreInputIssues(c: ChoreInput): (r: seq<Issue>)
    ensures r == [] <==>
      && 1 <= Utf16Length(c.name) <= 50
      && (c.description.Some? ==> Utf16Length(c.description.value) <= 50)
      && (c.frequency.Some? ==> c.frequency.value in FrequencyOptions)
    ensures forall x :: x in r ==> x.path in {[NameField], [DescriptionField], [FrequencyField]}
  {
    NameIssues([NameField], c.name)
    + (if c.description.Some? then TableDescriptionIssues([DescriptionField], c.description.value) else [])
    + FrequencyIssues([FrequencyField], c.frequency)
  }

  /** What `insertUserSchema` reads; `name` and `householdId` are nullable columns. */
  datatype UserInput = UserInput(
    id: Option<string>, name: Option<string>, email: string, password: string, householdId: Option<string>)

  /** `insertUserSchema`: the password length; the e-mail format check is not part of this model. */
  function UserIssues(u: UserInput): (r: seq<Issue>)
    ensures r == [] <==> 8 <= Utf16Length(u.password) <= 50
    ensures forall x :: x in r ==> x.path == [PasswordField] && x.code != Refinement
  {
    PasswordIssues([PasswordField], u.password)
  }

  /** `registerSchema`'s input: the user fields plus `confirmPassword`. */
  datatype RegisterInput = RegisterInput(user: UserInput, confirmPassword: string)

  /** The refinement's issue, filed under `confirmPassword`. */
  const Mismatch := Issue([ConfirmPasswordField], Refinement, "Passwords don't match")

  /**
   * `registerSchema`: both passwords are length-checked, and the equality
   * refinement runs even when a length check fails, so its issue is added
   * to theirs.
   */
  function RegisterIssues(f: RegisterInput): (r: seq<Issue>)
    ensures r == [] <==> 8 <= Utf16Length(f.user.password) <= 50 && f.user.password == f.confirmPassword
    ensures Mismatch in r <==> f.user.password != f.confirmPassword
    ensures forall x :: x in r && x.code == Refinement ==> x == Mismatch
  {
    var checks := UserIssues(f.user) + PasswordIssues([ConfirmPasswordField], f.confirmPassword);
    assert Mismatch !in checks;
    checks + (if f.user.password == f.confirmPassword then [] else [Mismatch])
  }

  /** A short password that differs from its confirmation gets both a length issue and the mismatch. */
  lemma RegisterReportsAll(f: RegisterInput)
    requires Utf16Length(f.user.password) < 8 && f.user.password != f.confirmPassword
    ensures Issue([PasswordField], TooSmall(8), "String must contain at least 8 character(s)") in RegisterIssues(f)
    ensures Mismatch in RegisterIssues(f)
  {
    assert PasswordChecks[1..][1..] == [];
    assert UserIssues(f.user)[0] == Issue([PasswordField], TooSmall(8), "String must contain at least 8 character(s)");
    assert RegisterIssues(f)[0] == UserIssues(f.user)[0];
  }
}
