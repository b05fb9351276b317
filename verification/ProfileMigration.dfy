/** Migrating profile fields from private user documents to public ones: the
    planner, the merge that applies its plan, and the audit that looks for fields
    still missing. */
module ProfileMigration {
  import opened Basics

  type Uid = string

  datatype Field = Name | PhotoUrl | VotesVisible | CustomPhotoUrl

  /** A stored value; `Other` stands for numbers, lists, maps and the like. */
  datatype Value = Null | Bool(on: bool) | Text(text: string) | Other(truthy: bool, tag: int)

  type Doc = map<Field, Value>

  const FIELDS: seq<Field> := [Name, PhotoUrl, VotesVisible, CustomPhotoUrl]

  predicate Truthy(v: Value) {
    match v
    case Null => false
    case Bool(on) => on
    case Text(text) => text != ""
    case Other(truthy, _) => truthy
  }

  predicate HasField(d: Option<Doc>, f: Field) { d.Some? && f in d.value }

  /** An absent field reads as null. */
  function Get(d: Option<Doc>, f: Field): Value { if HasField(d, f) then d.value[f] else Null }

  predicate Blank(v: Value) { v == Null || v == Text("") }

  // ----- The planner -----

  /** What the plan does about one field: nothing, set it, or leave it for review. */
  datatype Decision = Keep | Set(value: Value) | Skip

  predicate ValidPublic(f: Field, v: Value) {
    match f
    case Name => v.Text? || v.Null?
    case PhotoUrl => v.Text? || v.Null?
    case VotesVisible => v.Bool? || v.Null?
    case CustomPhotoUrl => v.Text?
  }

  /** A value worth having: a flag for votesVisible, non-empty text otherwise. */
  predicate Usable(f: Field, v: Value) {
    if f == VotesVisible then v.Bool? else v.Text? && v.text != ""
  }

  function DecideCustom(private: Option<Doc>, public: Option<Doc>): Decision {
    var f := CustomPhotoUrl;
    var mine, theirs := Get(private, f), Get(public, f);
    if HasField(public, f) && theirs.Text? && theirs.text != "" then Keep
    else if (HasField(private, f) && mine == Bool(true)) || (HasField(public, f) && theirs == Bool(true)) then
      var url := Get(public, PhotoUrl);
      if url.Text? && url.text != "" then Set(url) else Skip
    else if ((HasField(private, f) && mine == Bool(false)) || (HasField(public, f) && theirs == Bool(false)))
         && (!HasField(public, f) || theirs.Bool? || !Truthy(theirs)) then Set(Text(""))
    else if HasField(public, f) && !ValidPublic(f, theirs) then Skip
    else if HasField(private, f) && !ValidPublic(f, mine) then (if mine != Null then Skip else Keep)
    else if HasField(private, f) && (!HasField(public, f) || Blank(theirs)) && Usable(f, mine) then Set(mine)
    else Keep
  }

  function DecidePlain(private: Option<Doc>, public: Option<Doc>, f: Field): Decision {
    var mine, theirs := Get(private, f), Get(public, f);
    var missing := !HasField(public, f) || Blank(theirs);
    if HasField(public, f) && !ValidPublic(f, theirs) then Skip
    else if HasField(private, f) && !ValidPublic(f, mine) then (if missing then Skip else Keep)
    else if HasField(private, f) && missing && Usable(f, mine) then Set(mine)
    else if f == VotesVisible && mine == Bool(true) && theirs == Bool(false) then Set(Bool(true))
    else Keep
  }

  function Decide(private: Option<Doc>, public: Option<Doc>, f: Field): Decision {
    if f == CustomPhotoUrl then DecideCustom(private, public) else DecidePlain(private, public, f)
  }

  ghost function Changes(private: Doc, public: Option<Doc>): Doc {
    map f | Decide(Some(private), public, f).Set? :: Decide(Some(private), public, f).value
  }

  /** The plan leaves nothing of this user for review. */
  ghost predicate SkipsNothing(private: Doc, public: Option<Doc>) {
    forall f :: !Decide(Some(private), public, f).Skip?
  }

  // ----- What the plan amounts to -----

  predicate NonEmpty(v: Value) { v.Text? && v.text != "" }

  /** The written name or photo address is the private one of the same field, and it
      is written exactly where the public one is absent, null or empty. */
  predicate MigratesText(private: Doc, public: Option<Doc>, changes: Doc, f: Field) {
    var mine, theirs := Get(Some(private), f), Get(public, f);
    && (f in changes <==> NonEmpty(mine) && theirs in {Null, Text("")})
    && (f in changes ==> changes[f] == mine)
  }

  /** The written flag is the private one, and it is written exactly where there is no
      public flag or where it turns the public one on. */
  predicate MigratesVotes(private: Doc, public: Option<Doc>, changes: Doc) {
    var mine, theirs := Get(Some(private), VotesVisible), Get(public, VotesVisible);
    && (VotesVisible in changes <==> (mine.Bool? && theirs == Null) || (mine == Bool(true) && theirs == Bool(false)))
    && (VotesVisible in changes ==> changes[VotesVisible] == mine)
  }

  /** The field holds the old flag, on one side or the other. */
  predicate Flagged(private: Doc, public: Option<Doc>, on: bool) {
    Get(Some(private), CustomPhotoUrl) == Bool(on) || Get(public, CustomPhotoUrl) == Bool(on)
  }

  /** An old flag that is off, beside nothing worth a second look. */
  predicate Cleared(private: Doc, public: Option<Doc>) {
    Flagged(private, public, false) && !(Get(public, CustomPhotoUrl).Other? && Get(public, CustomPhotoUrl).truthy)
  }

  /** A public address is kept. Otherwise an old flag that is on brings the public
      photo address, one that is off the empty text, and without one the private
      address comes where the public field is absent or empty. */
  predicate MigratesCustom(private: Doc, public: Option<Doc>, changes: Doc) {
    var mine, theirs := Get(Some(private), CustomPhotoUrl), Get(public, CustomPhotoUrl);
    var written := if CustomPhotoUrl in changes then Some(changes[CustomPhotoUrl]) else None;
    if NonEmpty(theirs) then written == None
    else if Flagged(private, public, true) then
      written == if NonEmpty(Get(public, PhotoUrl)) then Some(Get(public, PhotoUrl)) else None
    else if Cleared(private, public) then written == Some(Text(""))
    else written == if NonEmpty(mine) && (!HasField(public, CustomPhotoUrl) || theirs == Text("")) then Some(mine) else None
  }

  ghost predicate Migrates(private: Doc, public: Option<Doc>, changes: Doc) {
    && MigratesText(private, public, changes, Name) && MigratesText(private, public, changes, PhotoUrl)
    && MigratesVotes(private, public, changes) && MigratesCustom(private, public, changes)
  }

  predicate WrongType(f: Field, v: Value) {
    v != Null && (if f == VotesVisible then !v.Bool? else !v.Text?)
  }

  /** What needs a look: a public value of the wrong type, a private one with nothing
      public in its place, or an old custom-photo flag without a photo. */
  predicate LeftForReview(private: Doc, public: Option<Doc>, f: Field) {
    var mine, theirs := Get(Some(private), f), Get(public, f);
    if f != CustomPhotoUrl then WrongType(f, theirs) || (WrongType(f, mine) && theirs in {Null, Text("")})
    else if NonEmpty(theirs) then false
    else if Flagged(private, public, true) then !NonEmpty(Get(public, PhotoUrl))
    else !Cleared(private, public) && ((HasField(public, f) && !theirs.Text?) || WrongType(f, mine))
  }

  lemma DecidesText(private: Doc, public: Option<Doc>, f: Field)
    requires f == Name || f == PhotoUrl
    ensures MigratesText(private, public, Changes(private, public), f)
    ensures DecidePlain(Some(private), public, f).Skip? <==> LeftForReview(private, public, f)
  {
  }

  lemma DecidesVotes(private: Doc, public: Option<Doc>)
    ensures MigratesVotes(private, public, Changes(private, public))
    ensures DecidePlain(Some(private), public, VotesVisible).Skip? <==> LeftForReview(private, public, VotesVisible)
  {
  }

  lemma DecidesCustom(private: Doc, public: Option<Doc>)
    ensures MigratesCustom(private, public, Changes(private, public))
    ensures DecideCustom(Some(private), public).Skip? <==> LeftForReview(private, public, CustomPhotoUrl)
  {
  }

  lemma DecidesRightly(private: Doc, public: Option<Doc>)
    ensures Migrates(private, public, Changes(private, public))
    ensures forall f :: Decide(Some(private), public, f).Skip? <==> LeftForReview(private, public, f)
  {
    DecidesText(private, public, Name);
    DecidesText(private, public, PhotoUrl);
    DecidesVotes(private, public);
    DecidesCustom(private, public);
  }

  lemma AllFields(f: Field)
    ensures f in FIELDS
  {
    assert FIELDS[0] == Name && FIELDS[1] == PhotoUrl && FIELDS[2] == VotesVisible && FIELDS[3] == CustomPhotoUrl;
  }

  /** Plans one user, field by field. */
  method PlanUser(private: Doc, public: Option<Doc>) returns (changes: Doc, skipped: seq<Field>)
    ensures changes == Changes(private, public) && Migrates(private, public, changes)
    ensures Lists(skipped, set f | LeftForReview(private, public, f))
    ensures skipped == [] <==> SkipsNothing(private, public)
  {
    changes, skipped := map[], [];
    for i := 0 to |FIELDS|
      invariant forall f :: f in changes <==> f in FIELDS[..i] && Decide(Some(private), public, f).Set?
      invariant forall f :: f in changes ==> changes[f] == Decide(Some(private), public, f).value
      invariant forall f :: f in skipped <==> f in FIELDS[..i] && Decide(Some(private), public, f).Skip?
      invariant NoDuplicates(skipped)
    {
      assert FIELDS[..i + 1] == FIELDS[..i] + [FIELDS[i]] && FIELDS[i] !in FIELDS[..i];
      match Decide(Some(private), public, FIELDS[i])
      case Keep =>
      case Set(value) => changes := changes[FIELDS[i] := value];
      case Skip => skipped := skipped + [FIELDS[i]];
    }
    assert FIELDS[..|FIELDS|] == FIELDS;
    forall f ensures f in FIELDS { AllFields(f); }
    DecidesRightly(private, public);
    if f :| Decide(Some(private), public, f).Skip? { assert f in skipped; }
    if skipped != [] { assert skipped[0] in skipped; }
  }

  // ----- Applying -----

  /** A merging write creates the document or overwrites only the given fields. */
  function Merge(public: Option<Doc>, changes: Doc): Doc {
    if public.Some? then public.value + changes else changes
  }

  /** A user's public document after one round of planning and applying. */
  ghost function Rounded(private: Doc, public: Option<Doc>): Option<Doc> {
    var changes := Changes(private, public);
    if changes == map[] then public else Some(Merge(public, changes))
  }

  lemma RoundedField(private: Doc, public: Option<Doc>, f: Field)
    ensures var d := Decide(Some(private), public, f);
      && (d.Set? ==> HasField(Rounded(private, public), f) && Get(Rounded(private, public), f) == d.value)
      && (!d.Set? ==> HasField(Rounded(private, public), f) == HasField(public, f))
      && (!d.Set? ==> Get(Rounded(private, public), f) == Get(public, f))
  {
    var changes := Changes(private, public);
    assert f in changes <==> Decide(Some(private), public, f).Set?;
  }

  /** A round writes the migrated values, and leaves every other public value alone. */
  lemma RoundMigrates(private: Doc, public: Option<Doc>)
    ensures var changes, after := Changes(private, public), Rounded(private, public);
      && Migrates(private, public, changes)
      && forall f :: (HasField(after, f) <==> f in changes || HasField(public, f))
           && Get(after, f) == if f in changes then changes[f] else Get(public, f)
  {
    DecidesRightly(private, public);
    forall f ensures f in Changes(private, public) <==> Decide(Some(private), public, f).Set? {
      RoundedField(private, public, f);
    }
    forall f ensures Get(Rounded(private, public), f)
      == if f in Changes(private, public) then Changes(private, public)[f] else Get(public, f)
    {
      RoundedField(private, public, f);
    }
    forall f ensures HasField(Rounded(private, public), f) <==> f in Changes(private, public) || HasField(public, f) {
      RoundedField(private, public, f);
    }
  }

  // ----- The audit -----

  predicate HasValue(v: Value) { v != Null && v != Text("") }

  /** The audit reports the field as missing from the public document. */
  predicate ReportsMissing(private: Doc, public: Option<Doc>, f: Field) {
    && !(f == CustomPhotoUrl && Get(Some(private), f) == Bool(false) && Blank(Get(public, f)))
    && HasValue(Get(Some(private), f)) && !HasValue(Get(public, f))
  }

  /** A value worth having in private, nothing in public, and no custom photo that is
      switched off. */
  method AuditUser(private: Doc, public: Option<Doc>) returns (missing: seq<Field>)
    ensures forall f :: f in missing <==>
      && Get(Some(private), f) !in {Null, Text("")} && Get(public, f) in {Null, Text("")}
      && (f == CustomPhotoUrl ==> Get(Some(private), f) != Bool(false))
    ensures Lists(missing, set f | ReportsMissing(private, public, f))
  {
    missing := [];
    for i := 0 to |FIELDS|
      invariant forall f :: f in missing <==> f in FIELDS[..i] && ReportsMissing(private, public, f)
      invariant NoDuplicates(missing)
    {
      var f := FIELDS[i];
      assert FIELDS[..i + 1] == FIELDS[..i] + [f];
      assert f !in FIELDS[..i];
      var mine, theirs := Get(Some(private), f), Get(public, f);
      if f == CustomPhotoUrl && mine == Bool(false) && (theirs == Null || theirs == Text("") || !HasField(public, f)) {
        continue;
      }
      if HasValue(mine) && !HasValue(theirs) {
        missing := missing + [f];
      }
    }
    assert FIELDS[..|FIELDS|] == FIELDS;
    forall f ensures f in FIELDS { AllFields(f); }
  }

  // ----- What one round does to one field -----

  /** No usable public value is overwritten, except votesVisible false by true. */
  lemma UsableKept(private: Doc, public: Option<Doc>, f: Field)
    requires HasField(public, f) && Usable(f, Get(public, f))
    ensures var after := Get(Rounded(private, public), f);
      after == Get(public, f)
      || (f == VotesVisible && Get(public, f) == Bool(false) && after == Bool(true) && Get(Some(private), f) == Bool(true))
  {
    RoundedField(private, public, f);
  }

  /** The one case the plan does not settle: an unexpected private value beside a
      public legacy flag that is off. */
  predicate Unsettled(private: Doc, public: Option<Doc>) {
    Get(Some(private), CustomPhotoUrl).Other? && Get(public, CustomPhotoUrl) == Bool(false)
  }

  ghost function TwoRounds(private: Doc, public: Option<Doc>): Option<Doc> {
    Rounded(private, Rounded(private, public))
  }

  /** Fields other than the custom photo are settled by one round. */
  lemma PlainSettles(private: Doc, public: Option<Doc>, f: Field)
    requires f != CustomPhotoUrl && !Decide(Some(private), public, f).Skip?
    ensures var after := Rounded(private, public);
      && Decide(Some(private), after, f) == Keep && !ReportsMissing(private, after, f)
  {
    RoundedField(private, public, f);
  }

  /** The custom photo: after one round the plan keeps it, clears it again to the
      same empty text, or, where an old flag was cleared, sets the private address. */
  lemma CustomAfterOne(private: Doc, public: Option<Doc>)
    requires !DecideCustom(Some(private), public).Skip?
    ensures var first, after := DecideCustom(Some(private), public), Rounded(private, public);
      var second := DecideCustom(Some(private), after);
      if first == Set(Text("")) then
        var mine := Get(Some(private), CustomPhotoUrl);
        second == (if mine == Bool(false) then Set(Text(""))
                   else if Usable(CustomPhotoUrl, mine) then Set(mine)
                   else if mine.Other? then Skip else Keep)
      else second == Keep
  {
    RoundedField(private, public, CustomPhotoUrl);
  }

  // ----- Two rounds settle a user -----

  /** A round that only sets what is there already changes nothing. */
  lemma RoundedSame(private: Doc, public: Option<Doc>)
    requires forall f :: Decide(Some(private), public, f).Set? ==>
      HasField(public, f) && Get(public, f) == Decide(Some(private), public, f).value
    ensures Rounded(private, public) == public
  {
    var changes := Changes(private, public);
    if changes != map[] {
      var f :| f in changes;
      assert Decide(Some(private), public, f).Set?;
      assert Merge(public, changes) == public.value;
    }
  }

  /** The custom photo after two rounds. */
  lemma CustomAfterTwo(private: Doc, public: Option<Doc>)
    requires !DecideCustom(Some(private), public).Skip?
    ensures var after := TwoRounds(private, public);
      var third := DecideCustom(Some(private), after);
      && (third.Set? ==> HasField(after, CustomPhotoUrl) && Get(after, CustomPhotoUrl) == third.value)
      && (ReportsMissing(private, after, CustomPhotoUrl) <==> Unsettled(private, public))
  {
    CustomAfterOne(private, public);
    RoundedField(private, public, CustomPhotoUrl);
    RoundedField(private, Rounded(private, public), CustomPhotoUrl);
  }

  lemma PlainAfterTwo(private: Doc, public: Option<Doc>, f: Field)
    requires f != CustomPhotoUrl && !Decide(Some(private), public, f).Skip?
    ensures var after := TwoRounds(private, public);
      Decide(Some(private), after, f) == Keep && !ReportsMissing(private, after, f)
  {
    PlainSettles(private, public, f);
    PlainSettles(private, Rounded(private, public), f);
  }

  /** Where the plan skips nothing, a third round changes nothing, and the audit
      finds no missing field exactly when the user is not the unsettled case. */
  lemma TwoRoundsSettle(private: Doc, public: Option<Doc>)
    requires SkipsNothing(private, public)
    ensures var after := TwoRounds(private, public);
      && Rounded(private, after) == after
      && ((forall f :: !ReportsMissing(private, after, f)) <==> !Unsettled(private, public))
  {
    var after := TwoRounds(private, public);
    assert !Decide(Some(private), public, CustomPhotoUrl).Skip?;
    CustomAfterTwo(private, public);
    forall f
      ensures Decide(Some(private), after, f).Set? ==>
        HasField(after, f) && Get(after, f) == Decide(Some(private), after, f).value
      ensures f != CustomPhotoUrl ==> !ReportsMissing(private, after, f)
    {
      if f != CustomPhotoUrl { PlainAfterTwo(private, public, f); }
    }
    RoundedSame(private, after);
  }

  /** One round is not enough: an address behind a public flag that is off comes
      through only in the second. */
  lemma OneRoundNotEnough(url: string)
    requires url != ""
    ensures var private, public := map[CustomPhotoUrl := Text(url)], Some(map[CustomPhotoUrl := Bool(false)]);
      && SkipsNothing(private, public)
      && ReportsMissing(private, Rounded(private, public), CustomPhotoUrl)
      && Get(TwoRounds(private, public), CustomPhotoUrl) == Text(url)
  {
    var private, public := map[CustomPhotoUrl := Text(url)], Some(map[CustomPhotoUrl := Bool(false)]);
    RoundedField(private, public, CustomPhotoUrl);
    RoundedField(private, Rounded(private, public), CustomPhotoUrl);
  }

  /** The unsettled case: nothing is skipped at first, yet the field stays missing. */
  lemma UnsettledExample()
    ensures var private, public := map[CustomPhotoUrl := Other(true, 1)], Some(map[CustomPhotoUrl := Bool(false)]);
      SkipsNothing(private, public) && ReportsMissing(private, TwoRounds(private, public), CustomPhotoUrl)
  {
    var private, public := map[CustomPhotoUrl := Other(true, 1)], Some(map[CustomPhotoUrl := Bool(false)]);
    CustomAfterTwo(private, public);
  }

  // ----- All users -----

  function Lookup(docs: map<Uid, Doc>, uid: Uid): Option<Doc> {
    if uid in docs then Some(docs[uid]) else None
  }

  ghost function RoundedOne(users: map<Uid, Doc>, publics: map<Uid, Doc>, uid: Uid): Option<Doc> {
    if uid in users then Rounded(users[uid], Lookup(publics, uid)) else Lookup(publics, uid)
  }

  /** The public documents after one round over all users. */
  ghost function Round(users: map<Uid, Doc>, publics: map<Uid, Doc>): map<Uid, Doc> {
    map uid | uid in users.Keys + publics.Keys && RoundedOne(users, publics, uid).Some? ::
      RoundedOne(users, publics, uid).value
  }

  lemma RoundLookup(users: map<Uid, Doc>, publics: map<Uid, Doc>, uid: Uid)
    ensures Lookup(Round(users, publics), uid) == RoundedOne(users, publics, uid)
  {
  }

  lemma SameDocs(a: map<Uid, Doc>, b: map<Uid, Doc>)
    requires forall uid :: Lookup(a, uid) == Lookup(b, uid)
    ensures a == b
  {
    forall uid ensures uid in a <==> uid in b { assert Lookup(a, uid) == Lookup(b, uid); }
    forall uid | uid in a ensures a[uid] == b[uid] { assert Lookup(a, uid) == Lookup(b, uid); }
  }

  /** From data where the plan skips nothing, two rounds of planning and applying
      reach documents a further round leaves as they are, with no public field
      missing exactly when no user is the unsettled case. */
  lemma MigrationSettles(users: map<Uid, Doc>, publics: map<Uid, Doc>)
    requires forall uid :: uid in users ==> SkipsNothing(users[uid], Lookup(publics, uid))
    ensures var after := Round(users, Round(users, publics));
      && Round(users, after) == after
      && ((forall uid, f :: uid in users ==> !ReportsMissing(users[uid], Lookup(after, uid), f))
          <==> forall uid :: uid in users ==> !Unsettled(users[uid], Lookup(publics, uid)))
  {
    var once := Round(users, publics);
    var after := Round(users, once);
    forall uid
      ensures Lookup(Round(users, after), uid) == Lookup(after, uid)
      ensures uid in users ==>
        ((forall f :: !ReportsMissing(users[uid], Lookup(after, uid), f)) <==> !Unsettled(users[uid], Lookup(publics, uid)))
    {
      RoundLookup(users, publics, uid);
      RoundLookup(users, once, uid);
      RoundLookup(users, after, uid);
      if uid in users { TwoRoundsSettle(users[uid], Lookup(publics, uid)); }
    }
    SameDocs(Round(users, after), after);
  }

  // ----- Operations -----

  datatype Operation = Operation(uid: Uid, data: Doc)

  ghost function ChangesOf(users: map<Uid, Doc>, publics: map<Uid, Doc>, uid: Uid): Doc
    requires uid in users
  {
    Changes(users[uid], Lookup(publics, uid))
  }

  /** One operation for every listed user with changes, in order. */
  ghost function PlanOf(order: seq<Uid>, users: map<Uid, Doc>, publics: map<Uid, Doc>): seq<Operation>
    requires forall i :: 0 <= i < |order| ==> order[i] in users
  {
    if order == [] then []
    else
      var uid := order[|order| - 1];
      var changes := ChangesOf(users, publics, uid);
      if changes == map[] then PlanOf(order[..|order| - 1], users, publics)
      else PlanOf(order[..|order| - 1], users, publics) + [Operation(uid, changes)]
  }

  lemma PlanStep(order: seq<Uid>, n: nat, users: map<Uid, Doc>, publics: map<Uid, Doc>)
    requires n < |order| && forall i :: 0 <= i < |order| ==> order[i] in users
    ensures var before, changes := PlanOf(order[..n], users, publics), ChangesOf(users, publics, order[n]);
      PlanOf(order[..n + 1], users, publics) == if changes == map[] then before else before + [Operation(order[n], changes)]
  {
    assert order[..n + 1][..n] == order[..n] && order[..n + 1][n] == order[n];
  }

  /** The plan skips nothing of the first `n` users. */
  ghost predicate CleanUpTo(order: seq<Uid>, n: nat, users: map<Uid, Doc>, publics: map<Uid, Doc>)
    requires n <= |order| && forall i :: 0 <= i < |order| ==> order[i] in users
  {
    forall i :: 0 <= i < n ==> SkipsNothing(users[order[i]], Lookup(publics, order[i]))
  }

  lemma CleanStep(order: seq<Uid>, n: nat, users: map<Uid, Doc>, publics: map<Uid, Doc>)
    requires n < |order| && forall i :: 0 <= i < |order| ==> order[i] in users
    ensures CleanUpTo(order, n + 1, users, publics)
      <==> CleanUpTo(order, n, users, publics) && SkipsNothing(users[order[n]], Lookup(publics, order[n]))
  {
  }

  /** The operation writes something, and what it writes is migrated. */
  ghost predicate Moves(op: Operation, users: map<Uid, Doc>, publics: map<Uid, Doc>) {
    op.uid in users && op.data != map[] && Migrates(users[op.uid], Lookup(publics, op.uid), op.data)
  }

  ghost predicate AllMove(ops: seq<Operation>, users: map<Uid, Doc>, publics: map<Uid, Doc>) {
    forall i :: 0 <= i < |ops| ==> Moves(ops[i], users, publics)
  }

  lemma OneMoreMoves(ops: seq<Operation>, op: Operation, users: map<Uid, Doc>, publics: map<Uid, Doc>)
    requires AllMove(ops, users, publics) && Moves(op, users, publics)
    ensures AllMove(ops + [op], users, publics)
  {
  }

  method Plan(order: seq<Uid>, users: map<Uid, Doc>, publics: map<Uid, Doc>) returns (ops: seq<Operation>, skipped: nat)
    requires forall i :: 0 <= i < |order| ==> order[i] in users
    ensures ops == PlanOf(order, users, publics)
    ensures AllMove(ops, users, publics)
    ensures skipped == 0 <==> CleanUpTo(order, |order|, users, publics)
  {
    ops, skipped := [], 0;
    for n := 0 to |order|
      invariant ops == PlanOf(order[..n], users, publics)
      invariant AllMove(ops, users, publics)
      invariant skipped == 0 <==> CleanUpTo(order, n, users, publics)
    {
      var uid := order[n];
      PlanStep(order, n, users, publics);
      CleanStep(order, n, users, publics);
      var changes, more := PlanUser(users[uid], Lookup(publics, uid));
      skipped := skipped + |more|;
      if changes != map[] {
        OneMoreMoves(ops, Operation(uid, changes), users, publics);
        ops := ops + [Operation(uid, changes)];
      }
    }
    assert order[..|order|] == order;
  }

  function WithOperation(publics: map<Uid, Doc>, op: Operation): map<Uid, Doc> {
    publics[op.uid := Merge(Lookup(publics, op.uid), op.data)]
  }

  function ApplyAll(publics: map<Uid, Doc>, ops: seq<Operation>): map<Uid, Doc> {
    if ops == [] then publics else WithOperation(ApplyAll(publics, ops[..|ops| - 1]), ops[|ops| - 1])
  }

  const BATCH: nat := 500

  /** Applies the operations in batches of at most 500; a batch is committed as a whole. */
  method Apply(publics: map<Uid, Doc>, ops: seq<Operation>) returns (after: map<Uid, Doc>, written: nat)
    ensures after == ApplyAll(publics, ops) && written == |ops|
  {
    after := publics;
    var start := 0;
    while start < |ops|
      invariant 0 <= start <= |ops| && after == ApplyAll(publics, ops[..start])
      decreases |ops| - start
    {
      var stop := if start + BATCH < |ops| then start + BATCH else |ops|;
      var batch := after;
      for i := start to stop
        invariant batch == ApplyAll(publics, ops[..i])
      {
        assert ops[..i + 1][..i] == ops[..i];
        batch := WithOperation(batch, ops[i]);
      }
      after := batch;
      start := stop;
    }
    assert ops[..|ops|] == ops;
    written := |ops|;
  }

  lemma OperationLookup(publics: map<Uid, Doc>, op: Operation, uid: Uid)
    ensures Lookup(WithOperation(publics, op), uid)
      == if uid == op.uid then Some(Merge(Lookup(publics, uid), op.data)) else Lookup(publics, uid)
  {
  }

  lemma ApplyLast(publics: map<Uid, Doc>, before: seq<Operation>, op: Operation)
    ensures ApplyAll(publics, before + [op]) == WithOperation(ApplyAll(publics, before), op)
  {
    assert (before + [op])[..|before|] == before;
  }

  lemma RoundedOneIs(users: map<Uid, Doc>, publics: map<Uid, Doc>, uid: Uid)
    requires uid in users
    ensures var changes := ChangesOf(users, publics, uid);
      RoundedOne(users, publics, uid)
      == if changes == map[] then Lookup(publics, uid) else Some(Merge(Lookup(publics, uid), changes))
  {
  }

  /** Distinct users: each operation meets the document it was planned for. */
  lemma {:induction false} ApplyPlan(order: seq<Uid>, users: map<Uid, Doc>, publics: map<Uid, Doc>, uid: Uid)
    requires NoDuplicates(order) && forall i :: 0 <= i < |order| ==> order[i] in users
    ensures Lookup(ApplyAll(publics, PlanOf(order, users, publics)), uid)
      == if uid in order then RoundedOne(users, publics, uid) else Lookup(publics, uid)
    decreases |order|
  {
    if order != [] {
      var n := |order| - 1;
      var shorter, last := order[..n], order[n];
      assert order == shorter + [last] && last !in shorter && order[..n + 1] == order;
      ApplyPlan(shorter, users, publics, uid);
      PlanStep(order, n, users, publics);
      var before, changes := PlanOf(shorter, users, publics), ChangesOf(users, publics, last);
      RoundedOneIs(users, publics, last);
      if changes != map[] {
        ApplyLast(publics, before, Operation(last, changes));
        OperationLookup(ApplyAll(publics, before), Operation(last, changes), uid);
      }
    }
  }

  /** Applying the plan for all users is one round. */
  lemma PlanThenApply(order: seq<Uid>, users: map<Uid, Doc>, publics: map<Uid, Doc>)
    requires Lists(order, users.Keys) && forall i :: 0 <= i < |order| ==> order[i] in users
    ensures ApplyAll(publics, PlanOf(order, users, publics)) == Round(users, publics)
  {
    var after := ApplyAll(publics, PlanOf(order, users, publics));
    forall uid ensures Lookup(after, uid) == Lookup(Round(users, publics), uid) {
      RoundLookup(users, publics, uid);
      ApplyPlan(order, users, publics, uid);
    }
    SameDocs(after, Round(users, publics));
  }
}
