/**
 The admin dashboard: its form state, its reaction to the live scores and
 groups subscriptions, and the writes its handlers send to the store.

 Every handler is one atomic transition. A handler returns the page's next
 state together with the writes that reached the store; whether an awaited
 write was accepted (network, permissions) is a parameter, because the store
 decides it. The seeding writes are not awaited and are listed as issued.
 */
module Dashboard {
  import opened Values
  import opened Store
  import GroupId
  import Numbers

  /** The score form's fields. They hold whatever `handleEdit` copied out of
      a record, so each is a value, not only text. */
  datatype Form = Form(
    studentName: Value,
    itemName: Value,
    itemType: Value,
    group: Value,
    score: Value,
    category: Value)

  datatype Admin = Admin(
    form: Form,
    editingScoreId: Value,
    recentScores: seq<Doc>,
    groupsData: seq<Doc>,
    loading: bool,
    newGroupName: string,
    newGroupColor: string)

  /** The dashboard's state after a handler, and the writes that took effect. */
  datatype Step = Step(state: Admin, writes: seq<Write>)

  function Mount(): (a: Admin)
    ensures a.form.itemType == Str("Individual") && a.form.category == Str("Arts")
    ensures a.form.studentName == Str("") && a.form.itemName == Str("")
    ensures a.form.group == Str("") && a.form.score == Str("")
    ensures a.editingScoreId == Null && !a.loading && a.groupsData == [] && a.recentScores == []
    ensures a.newGroupName == "" && a.newGroupColor == "#000000"
  {
    Admin(Form(Str(""), Str(""), Str("Individual"), Str(""), Str(""), Str("Arts")),
          Null, [], [], false, "", "#000000")
  }

  // ---------------------------------------------------------------------------
  // Default groups and seeding

  datatype GroupSpec = GroupSpec(id: string, name: string, color: string)

  /** Nishan (red), Nagara (green), Dhankul (blue), Bansuri (purple). */
  const DefaultGroups: seq<GroupSpec> := [
    GroupSpec("Nishan", "Nishan", "#ef4444"),
    GroupSpec("Nagara", "Nagara", "#22c55e"),
    GroupSpec("Dhankul", "Dhankul", "#3b82f6"),
    GroupSpec("Bansuri", "Bansuri", "#a855f7")
  ]

  /** The object `{ id, name, color }`, as shown and as written. */
  function GroupDoc(g: GroupSpec): (d: Doc)
    ensures d.Keys == {"id", "name", "color"}
    ensures d["id"] == Str(g.id) && d["name"] == Str(g.name) && d["color"] == Str(g.color)
  {
    map["id" := Str(g.id), "name" := Str(g.name), "color" := Str(g.color)]
  }

  function DefaultGroupDocs(): (r: seq<Doc>)
    ensures |r| == |DefaultGroups|
    ensures forall i :: 0 <= i < |r| ==> r[i] == GroupDoc(DefaultGroups[i])
  {
    seq(|DefaultGroups|, i requires 0 <= i < |DefaultGroups| => GroupDoc(DefaultGroups[i]))
  }

  /** `setDoc(doc(db, "groups", g.id), g)` for each default group. */
  function SeedWrites(): (ws: seq<Write>)
    ensures |ws| == |DefaultGroups|
    ensures forall i :: 0 <= i < |ws| ==> ws[i] == SetDoc(Groups, DefaultGroups[i].id, GroupDoc(DefaultGroups[i]))
  {
    seq(|DefaultGroups|, i requires 0 <= i < |DefaultGroups| =>
      SetDoc(Groups, DefaultGroups[i].id, GroupDoc(DefaultGroups[i])))
  }

  // ---------------------------------------------------------------------------
  // Subscriptions

  /** `{ id: doc.id, ...doc.data() }`: here a stored `id` field overrides the
      document id. */
  function AdminRow(d: DocSnap): (r: Doc)
    ensures "id" in d.data ==> Get(r, "id") == d.data["id"]
    ensures "id" !in d.data ==> Get(r, "id") == Str(d.id)
    ensures forall f :: f != "id" ==> Get(r, f) == Get(d.data, f)
  {
    map["id" := Str(d.id)] + d.data
  }

  function AdminRows(batch: seq<DocSnap>): (r: seq<Doc>)
    ensures |r| == |batch|
    ensures forall i :: 0 <= i < |batch| ==> r[i] == AdminRow(batch[i])
  {
    seq(|batch|, i requires 0 <= i < |batch| => AdminRow(batch[i]))
  }

  /** The scores snapshot replaces the recent-scores table wholesale. */
  function OnScoresSnapshot(a: Admin, batch: seq<DocSnap>): (r: Admin)
    ensures r.recentScores == AdminRows(batch)
    ensures |r.recentScores| == |batch|
    ensures forall i, f :: 0 <= i < |batch| && f != "id" ==> Get(r.recentScores[i], f) == Get(batch[i].data, f)
    ensures forall i :: 0 <= i < |batch| && "id" in batch[i].data ==> Get(r.recentScores[i], "id") == batch[i].data["id"]
    ensures forall i :: 0 <= i < |batch| && "id" !in batch[i].data ==> Get(r.recentScores[i], "id") == Str(batch[i].id)
    ensures r == a.(recentScores := r.recentScores)
  {
    a.(recentScores := AdminRows(batch))
  }

  /** `groups.some(g => g.id === prevGroup)`. */
  predicate HasGroup(groups: seq<Doc>, id: Value)
  {
    exists i :: 0 <= i < |groups| && Get(groups[i], "id") == id
  }

  /** A non-empty groups snapshot replaces the group list and keeps the
      selected group only if it is still listed. An empty one shows the four
      default groups, issues a full set of each of them keyed by its own id,
      and clears the selection. Nothing records that seeding happened. */
  function OnGroupsSnapshot(a: Admin, batch: seq<DocSnap>): (r: Step)
    ensures batch != [] ==> r.writes == [] && r.state.groupsData == AdminRows(batch)
    ensures batch != [] && HasGroup(AdminRows(batch), a.form.group) ==> r.state.form == a.form
    ensures batch != [] && !HasGroup(AdminRows(batch), a.form.group) ==> r.state.form == a.form.(group := Str(""))
    ensures batch == [] ==> r.writes == SeedWrites() && r.state.groupsData == DefaultGroupDocs()
    ensures batch == [] ==> r.state.form == a.form.(group := Str(""))
    ensures r.state == a.(groupsData := r.state.groupsData, form := r.state.form)
  {
    if batch != [] then
      var groups := AdminRows(batch);
      var group := if HasGroup(groups, a.form.group) then a.form.group else Str("");
      Step(a.(groupsData := groups, form := a.form.(group := group)), [])
    else
      Step(a.(groupsData := DefaultGroupDocs(), form := a.form.(group := Str(""))), SeedWrites())
  }

  /** Seeding writes exactly the four default group documents and nothing else. */
  lemma SeedingWritesDefaults(db: Db)
    ensures var after := ApplyAll(db, SeedWrites());
      && after.scores == db.scores
      && (forall i :: 0 <= i < |DefaultGroups| ==>
            Lookup(after.groups, DefaultGroups[i].id) == Some(GroupDoc(DefaultGroups[i])))
      && (forall k :: (forall i :: 0 <= i < |DefaultGroups| ==> k != DefaultGroups[i].id) ==>
            Lookup(after.groups, k) == Lookup(db.groups, k))
  {
    var ws := SeedWrites();
    ApplyAllFour(db, ws);
    var d1 := Apply(db, ws[0]);
    var d2 := Apply(d1, ws[1]);
    var d3 := Apply(d2, ws[2]);
    var after := Apply(d3, ws[3]);
    forall i | 0 <= i < |DefaultGroups|
      ensures Lookup(after.groups, DefaultGroups[i].id) == Some(GroupDoc(DefaultGroups[i]))
    {
      SeedLands(db, i);
    }
  }

  /** Each default group's seed write survives the later ones, whose ids differ. */
  lemma SeedLands(db: Db, i: int)
    requires 0 <= i < |DefaultGroups|
    ensures Lookup(ApplyAll(db, SeedWrites()).groups, DefaultGroups[i].id) == Some(GroupDoc(DefaultGroups[i]))
  {
    var ws := SeedWrites();
    ApplyAllFour(db, ws);
    var d1 := Apply(db, ws[0]);
    var d2 := Apply(d1, ws[1]);
    var d3 := Apply(d2, ws[2]);
    var d4 := Apply(d3, ws[3]);
    var id := DefaultGroups[i].id;
    var g := GroupDoc(DefaultGroups[i]);
    if i == 0 {
      assert Lookup(d1.groups, id) == Some(g);
      assert Lookup(d2.groups, id) == Some(g) by { assert ws[1].id != id; }
      assert Lookup(d3.groups, id) == Some(g) by { assert ws[2].id != id; }
      assert Lookup(d4.groups, id) == Some(g) by { assert ws[3].id != id; }
    } else if i == 1 {
      assert Lookup(d2.groups, id) == Some(g);
      assert Lookup(d3.groups, id) == Some(g) by { assert ws[2].id != id; }
      assert Lookup(d4.groups, id) == Some(g) by { assert ws[3].id != id; }
    } else if i == 2 {
      assert Lookup(d3.groups, id) == Some(g);
      assert Lookup(d4.groups, id) == Some(g) by { assert ws[3].id != id; }
    } else {
      assert Lookup(d4.groups, id) == Some(g);
    }
  }

  /** Every empty snapshot seeds again: two in a row issue the four writes twice. */
  lemma SeedingRepeats(a: Admin)
    ensures var first := OnGroupsSnapshot(a, []);
      var second := OnGroupsSnapshot(first.state, []);
      first.writes + second.writes == SeedWrites() + SeedWrites()
      && |first.writes + second.writes| == 2 * |DefaultGroups|
  {
  }

  // ---------------------------------------------------------------------------
  // The score form

  /** A field the browser's `required` check accepts. */
  predicate Filled(v: Value)
  {
    (v.Str? && v.s != "") || v.Num?
  }

  /** The form passes the browser's own checks (`required` on the group,
      student and item fields, `type="number"` and `required` on the score);
      otherwise the submit handler never runs. */
  predicate Submittable(f: Form)
  {
    Filled(f.studentName) && Filled(f.itemName) && Filled(f.group) && Numbers.NumberOf(f.score).Some?
  }

  /** `scoreData`: the six form fields, the score as a number and the
      server-timestamp placeholder. */
  function ScoreData(f: Form, score: int): (d: Doc)
    ensures d.Keys == {"studentName", "itemName", "itemType", "group", "score", "category", "timestamp"}
    ensures d["score"] == Num(score) && d["timestamp"] == ServerTimestamp
    ensures d["studentName"] == f.studentName && d["itemName"] == f.itemName && d["itemType"] == f.itemType
    ensures d["group"] == f.group && d["category"] == f.category
  {
    map["studentName" := f.studentName, "itemName" := f.itemName, "itemType" := f.itemType,
        "group" := f.group, "score" := Num(score), "category" := f.category,
        "timestamp" := ServerTimestamp]
  }

  /** Where a save goes: `if (editingScoreId)` picks the merge into that
      document, otherwise a new document; a truthy id that is not a string
      makes `doc()` throw, which the handler's `catch` reports. */
  datatype Target = NewScore | EditScore(id: string) | BadReference

  function TargetOf(editing: Value): (t: Target)
    ensures !Truthy(editing) <==> t.NewScore?
    ensures t.EditScore? <==> editing.Str? && editing.s != ""
    ensures t.EditScore? ==> editing == Str(t.id)
  {
    if !Truthy(editing) then NewScore
    else if editing.Str? then EditScore(editing.s)
    else BadReference
  }

  function ScoreWrite(t: Target, autoId: string, data: Doc): Write
    requires !t.BadReference?
  {
    match t
    case NewScore => SetDoc(Scores, autoId, data)
    case EditScore(id) => MergeDoc(Scores, id, data)
  }

  /** Whether a submitted save's write is accepted: the reference is valid,
      no field is `undefined`, and the store accepts it. */
  predicate SaveAccepted(a: Admin, accepted: bool)
    requires Submittable(a.form)
  {
    && accepted
    && !TargetOf(a.editingScoreId).BadReference?
    && Storable(ScoreData(a.form, Numbers.NumberOf(a.form.score).value))
  }

  /** The form after a successful save: student, item and score cleared,
      item type, group and category kept. */
  function Cleared(f: Form): Form
  {
    f.(studentName := Str(""), itemName := Str(""), score := Str(""))
  }

  /** `handleSaveScore`. `autoId` is the id the client library generates for
      a new document; `accepted` is the store's verdict on the write. */
  function SaveScore(a: Admin, autoId: string, accepted: bool): (r: Step)
    // the browser blocks an incomplete form
    ensures !Submittable(a.form) ==> r == Step(a, [])
    ensures Submittable(a.form) ==> !r.state.loading
    // success: one write of the score data, form partly cleared
    ensures Submittable(a.form) && SaveAccepted(a, accepted) ==>
      var data := ScoreData(a.form, Numbers.NumberOf(a.form.score).value);
      && |r.writes| == 1
      && (TargetOf(a.editingScoreId).NewScore? ==> r.writes[0] == SetDoc(Scores, autoId, data))
      && (TargetOf(a.editingScoreId).EditScore? ==>
            r.writes[0] == MergeDoc(Scores, a.editingScoreId.s, data) && r.state.editingScoreId == Null)
      && (TargetOf(a.editingScoreId).NewScore? ==> r.state.editingScoreId == a.editingScoreId)
      && r.state.form.studentName == Str("") && r.state.form.itemName == Str("") && r.state.form.score == Str("")
      && r.state.form.itemType == a.form.itemType && r.state.form.group == a.form.group
      && r.state.form.category == a.form.category
    // failure: nothing written, form and edit target as they were
    ensures Submittable(a.form) && !SaveAccepted(a, accepted) ==>
      r.writes == [] && r.state == a.(loading := false)
    ensures r.state.groupsData == a.groupsData && r.state.recentScores == a.recentScores
    ensures r.state.newGroupName == a.newGroupName && r.state.newGroupColor == a.newGroupColor
  {
    if !Submittable(a.form) then Step(a, [])
    else
      var data := ScoreData(a.form, Numbers.NumberOf(a.form.score).value);
      var target := TargetOf(a.editingScoreId);
      if SaveAccepted(a, accepted) then
        var editing := if target.EditScore? then Null else a.editingScoreId;
        Step(a.(form := Cleared(a.form), editingScoreId := editing, loading := false),
             [ScoreWrite(target, autoId, data)])
      else
        Step(a.(loading := false), [])
  }

  /** `handleEdit`: copies the record's six fields into the form (item type
      `Individual` when the record's is falsy) and remembers its id. */
  function Edit(a: Admin, item: Doc): (r: Admin)
    ensures r.form.studentName == Get(item, "studentName") && r.form.itemName == Get(item, "itemName")
    ensures r.form.group == Get(item, "group") && r.form.score == Get(item, "score")
    ensures r.form.category == Get(item, "category")
    ensures Truthy(Get(item, "itemType")) ==> r.form.itemType == item["itemType"]
    ensures !Truthy(Get(item, "itemType")) ==> r.form.itemType == Str("Individual")
    ensures r.editingScoreId == Get(item, "id")
    ensures r == a.(form := r.form, editingScoreId := r.editingScoreId)
  {
    a.(form := Form(Get(item, "studentName"), Get(item, "itemName"),
                    Or(Get(item, "itemType"), Str("Individual")), Get(item, "group"),
                    Get(item, "score"), Get(item, "category")),
       editingScoreId := Get(item, "id"))
  }

  /** `handleCancelEdit`: clears student, item, score and the edit target only;
      item type, group and category keep the edited record's values. */
  function CancelEdit(a: Admin): (r: Admin)
    ensures r.form == Cleared(a.form) && r.editingScoreId == Null
    ensures r == a.(form := r.form, editingScoreId := Null)
  {
    a.(form := Cleared(a.form), editingScoreId := Null)
  }

  /** Cancelling an edit does not restore the form's defaults: item type,
      group and category keep the values copied from the edited record. */
  lemma EditThenCancel(a: Admin, item: Doc)
    ensures var r := CancelEdit(Edit(a, item));
      && r.editingScoreId == Null
      && r.form.studentName == Str("") && r.form.itemName == Str("") && r.form.score == Str("")
      && r.form.group == Get(item, "group") && r.form.category == Get(item, "category")
      && r.form.itemType == Or(Get(item, "itemType"), Str("Individual"))
      && r.groupsData == a.groupsData && r.recentScores == a.recentScores
  {
  }

  /** `handleDelete`: after confirmation, deletes the one document. */
  function DeleteScore(id: Value, confirmed: bool, accepted: bool): (ws: seq<Write>)
    ensures confirmed && accepted && DocRef(id).Some? ==> ws == [DeleteDoc(Scores, id.s)]
    ensures !(confirmed && accepted && DocRef(id).Some?) ==> ws == []
  {
    if confirmed && accepted && DocRef(id).Some? then [DeleteDoc(Scores, id.s)] else []
  }

  // ---------------------------------------------------------------------------
  // Group management

  /** `handleUpdateGroup(id, field, value)`: a merge write of one field. */
  function UpdateGroup(id: Value, field: string, value: string, accepted: bool): (ws: seq<Write>)
    ensures accepted && DocRef(id).Some? ==> ws == [MergeDoc(Groups, id.s, map[field := Str(value)])]
    ensures !(accepted && DocRef(id).Some?) ==> ws == []
  {
    if accepted && DocRef(id).Some? then [MergeDoc(Groups, id.s, map[field := Str(value)])] else []
  }

  /** The document `handleAddGroup` writes: exactly `{ name, color }`. */
  function NewGroupDoc(a: Admin): (d: Doc)
    ensures d.Keys == {"name", "color"}
    ensures d["name"] == Str(a.newGroupName) && d["color"] == Str(a.newGroupColor)
  {
    map["name" := Str(a.newGroupName), "color" := Str(a.newGroupColor)]
  }

  /** `handleAddGroup`: refuses a blank name; otherwise a full set of
      `{ name, color }` at the id derived from the name, and, once the store
      accepts it, the add-group form is reset. */
  function AddGroup(a: Admin, accepted: bool): (r: Step)
    ensures GroupId.Trim(a.newGroupName) == "" ==> r == Step(a, [])
    ensures GroupId.Trim(a.newGroupName) != "" && accepted ==>
      && r.writes == [SetDoc(Groups, GroupId.DeriveId(a.newGroupName),
                             NewGroupDoc(a))]
      && r.state == a.(newGroupName := "", newGroupColor := "#000000")
    ensures GroupId.Trim(a.newGroupName) != "" && !accepted ==> r == Step(a, [])
  {
    if GroupId.Trim(a.newGroupName) == "" then Step(a, [])
    else
      var id := GroupId.DeriveId(a.newGroupName);
      var data := NewGroupDoc(a);
      if accepted then Step(a.(newGroupName := "", newGroupColor := "#000000"), [SetDoc(Groups, id, data)])
      else Step(a, [])
  }

  /** `handleDeleteGroup`: after confirmation, deletes the group document
      only; no score is touched. */
  function DeleteGroup(id: Value, confirmed: bool, accepted: bool): (ws: seq<Write>)
    ensures confirmed && accepted && DocRef(id).Some? ==> ws == [DeleteDoc(Groups, id.s)]
    ensures !(confirmed && accepted && DocRef(id).Some?) ==> ws == []
  {
    if confirmed && accepted && DocRef(id).Some? then [DeleteDoc(Groups, id.s)] else []
  }

  /** `groupsData.find(g => g.id === s.group)`. */
  function FindGroup(groups: seq<Doc>, id: Value): (r: Option<Doc>)
    ensures r.None? <==> !HasGroup(groups, id)
    ensures r.Some? ==>
              exists i :: && 0 <= i < |groups| && groups[i] == r.value && Get(groups[i], "id") == id
                          && (forall j :: 0 <= j < i ==> Get(groups[j], "id") != id)
    decreases |groups|
  {
    if groups == [] then None
    else if Get(groups[0], "id") == id then Some(groups[0])
    else
      var r := FindGroup(groups[1..], id);
      assert forall i :: 0 < i < |groups| ==> groups[1..][i - 1] == groups[i];
      assert HasGroup(groups, id) ==> HasGroup(groups[1..], id);
      if r.Some? then
        var i :| 0 <= i < |groups[1..]| && groups[1..][i] == r.value && Get(groups[1..][i], "id") == id
          && forall j :: 0 <= j < i ==> Get(groups[1..][j], "id") != id;
        assert groups[i + 1] == r.value;
        assert forall j :: 0 <= j < i + 1 ==> Get(groups[j], "id") != id by {
          forall j | 0 <= j < i + 1 ensures Get(groups[j], "id") != id {
            if j > 0 { assert groups[j] == groups[1..][j - 1]; }
          }
        }
        r
      else r
  }

  /** The group column of the recent-scores table: `grp.name || 'Unknown'`,
      where `grp` is the first listed group with the score's group id. */
  function GroupLabel(groups: seq<Doc>, score: Doc): (shown: Value)
    ensures !HasGroup(groups, Get(score, "group")) ==> shown == Str("Unknown")
    ensures shown == Str("Unknown")
         || exists i :: 0 <= i < |groups| && Get(groups[i], "id") == Get(score, "group") && shown == Get(groups[i], "name")
    ensures forall i :: 0 <= i < |groups| && Get(groups[i], "id") == Get(score, "group")
                        && (forall j :: 0 <= j < i ==> Get(groups[j], "id") != Get(score, "group")) ==>
              shown == if Truthy(Get(groups[i], "name")) then Get(groups[i], "name") else Str("Unknown")
  {
    match FindGroup(groups, Get(score, "group"))
    case None => Str("Unknown")
    case Some(g) => Or(Get(g, "name"), Str("Unknown"))
  }

  // ---------------------------------------------------------------------------
  // Properties of the handlers' writes

  /** Saving a new score creates exactly one document, at a fresh id, holding
      exactly the score data; every other document is untouched. */
  lemma SaveCreatesOneScore(db: Db, a: Admin, autoId: string)
    requires Submittable(a.form) && SaveAccepted(a, true) && !Truthy(a.editingScoreId)
    requires autoId !in db.scores
    ensures var after := ApplyAll(db, SaveScore(a, autoId, true).writes);
      && after.groups == db.groups
      && after.scores.Keys == db.scores.Keys + {autoId}
      && |after.scores| == |db.scores| + 1
      && after.scores[autoId] == ScoreData(a.form, Numbers.NumberOf(a.form.score).value)
      && (forall k :: k in db.scores ==> after.scores[k] == db.scores[k])
  {
    var ws := SaveScore(a, autoId, true).writes;
    var after := Apply(db, ws[0]);
    assert ApplyAll(db, ws) == after by {
      assert ws[1..] == [];
    }
    assert after.scores == db.scores[autoId := ScoreData(a.form, Numbers.NumberOf(a.form.score).value)];
  }

  /** Saving an edit merges the score data into the edited document: the
      seven written fields take the form's values, any other stored field
      stays, and no other document changes. */
  lemma SaveEditMergesIntoRecord(db: Db, a: Admin, autoId: string, accepted: bool)
    requires Submittable(a.form) && SaveAccepted(a, accepted) && TargetOf(a.editingScoreId).EditScore?
    ensures var id := a.editingScoreId.s;
      var data := ScoreData(a.form, Numbers.NumberOf(a.form.score).value);
      var after := ApplyAll(db, SaveScore(a, autoId, accepted).writes);
      && after.groups == db.groups
      && id in after.scores
      && (forall f :: f in data ==> Get(after.scores[id], f) == data[f])
      && (forall f :: f !in data && id in db.scores ==> Get(after.scores[id], f) == Get(db.scores[id], f))
      && (forall f :: f !in data && id !in db.scores ==> f !in after.scores[id])
      && (forall k :: k != id ==> Lookup(after.scores, k) == Lookup(db.scores, k))
  {
    var ws := SaveScore(a, autoId, accepted).writes;
    assert ApplyAll(db, ws) == Apply(db, ws[0]) by {
      assert ws[1..] == [];
    }
    var id := a.editingScoreId.s;
    assert Lookup(ApplyAll(db, ws).scores, id).Some?;
  }

  /** A stored score that the form can hold and save: student, item and
      group are filled, the score is a number, the category is present, no
      field is `undefined`, and there is no stored `id` field (which would
      redirect the edit, see `StoredIdRedirectsEdit`). The item type may be
      missing or falsy. */
  predicate Editable(d: Doc)
  {
    && Storable(d) && "id" !in d
    && Filled(Get(d, "studentName")) && Filled(Get(d, "itemName")) && Filled(Get(d, "group"))
    && Get(d, "score").Num? && "category" in d
  }

  /** The item type the form shows for a record: `itemType || 'Individual'`. */
  function ItemTypeShown(d: Doc): Value
  {
    Or(Get(d, "itemType"), Str("Individual"))
  }

  /** The form `handleEdit` fills from a record's own fields. */
  function FormOf(d: Doc): Form
  {
    Form(Get(d, "studentName"), Get(d, "itemName"), ItemTypeShown(d), Get(d, "group"),
         Get(d, "score"), Get(d, "category"))
  }

  /** `handleEdit` on a stored score fills the form with that score's fields,
      with `Individual` for a missing or falsy item type, and targets its id. */
  lemma EditCopiesRecord(a: Admin, id: string, d: Doc)
    requires Editable(d) && id != ""
    ensures var edited := Edit(a, AdminRow(DocSnap(id, d)));
      && edited.editingScoreId == Str(id)
      && edited.form == Form(d["studentName"], d["itemName"], ItemTypeShown(d), d["group"], d["score"], d["category"])
      && (Truthy(Get(d, "itemType")) ==> edited.form.itemType == d["itemType"])
      && (!Truthy(Get(d, "itemType")) ==> edited.form.itemType == Str("Individual"))
      && Submittable(edited.form)
  {
  }

  /** The data a save of that form writes agrees with the record on every
      field it names except the item type, which becomes the shown one, and
      the timestamp. */
  lemma ScoreDataOfRecord(d: Doc)
    requires Editable(d)
    ensures d + ScoreData(FormOf(d), d["score"].n)
            == d["itemType" := ItemTypeShown(d)]["timestamp" := ServerTimestamp]
  {
  }

  /** Opening a stored score for edit and saving it unchanged rewrites the
      same document with the same fields, refreshing its timestamp; a record
      without a truthy item type comes back with item type `Individual`. */
  lemma EditThenSaveRoundTrip(db: Db, a: Admin, id: string, autoId: string)
    requires id in db.scores && id != "" && Editable(db.scores[id])
    ensures var edited := Edit(a, AdminRow(DocSnap(id, db.scores[id])));
      var saved := SaveScore(edited, autoId, true);
      && saved.writes == [MergeDoc(Scores, id, ScoreData(edited.form, db.scores[id]["score"].n))]
      && ApplyAll(db, saved.writes).scores
         == db.scores[id := db.scores[id]["itemType" := ItemTypeShown(db.scores[id])]["timestamp" := ServerTimestamp]]
      && (Truthy(Get(db.scores[id], "itemType")) ==>
            ApplyAll(db, saved.writes).scores == db.scores[id := db.scores[id]["timestamp" := ServerTimestamp]])
  {
    var d := db.scores[id];
    var edited := Edit(a, AdminRow(DocSnap(id, d)));
    EditCopiesRecord(a, id, d);
    assert edited.form == FormOf(d);
    ScoreDataOfRecord(d);
    var data := ScoreData(edited.form, d["score"].n);
    assert Storable(data);
    var saved := SaveScore(edited, autoId, true);
    assert saved.writes == [MergeDoc(Scores, id, data)];
    assert ApplyAll(db, saved.writes) == Apply(db, saved.writes[0]) by {
      assert saved.writes[1..] == [];
    }
    if Truthy(Get(d, "itemType")) {
      assert d["itemType" := ItemTypeShown(d)] == d;
    }
  }

  /** With a stored `id` field, the row's `id` is that field, so `handleEdit`
      targets the document it names, not the one being edited. */
  lemma StoredIdRedirectsEdit(a: Admin, id: string, d: Doc, other: string)
    requires "id" in d && d["id"] == Str(other) && other != ""
    ensures Edit(a, AdminRow(DocSnap(id, d))).editingScoreId == Str(other)
    ensures TargetOf(Edit(a, AdminRow(DocSnap(id, d))).editingScoreId) == EditScore(other)
  {
  }

  /** Deleting a score removes that document only, and a repeated delete
      leaves the store as the first one did. */
  lemma DeleteScoreRemovesOnlyIt(db: Db, id: string)
    requires id != ""
    ensures var after := ApplyAll(db, DeleteScore(Str(id), true, true));
      && id !in after.scores
      && after.groups == db.groups
      && (forall k :: k != id ==> Lookup(after.scores, k) == Lookup(db.scores, k))
      && ApplyAll(after, DeleteScore(Str(id), true, true)) == after
  {
    var w := DeleteDoc(Scores, id);
    assert ApplyAll(db, [w]) == Apply(db, w);
    assert ApplyAll(Apply(db, w), [w]) == Apply(Apply(db, w), w);
    DeleteIdempotent(db, Scores, id);
  }

  /** Renaming or recolouring a group writes that one field; every other field
      of the group, every other group and every score stay as they were. */
  lemma UpdateGroupChangesOneField(db: Db, id: string, field: string, value: string)
    requires id != ""
    ensures var after := ApplyAll(db, UpdateGroup(Str(id), field, value, true));
      && after.scores == db.scores
      && id in after.groups && Get(after.groups[id], field) == Str(value)
      && (forall f :: f != field && id in db.groups ==> Get(after.groups[id], f) == Get(db.groups[id], f))
      && (forall f :: f != field && id !in db.groups ==> f !in after.groups[id])
      && (forall k :: k != id ==> Lookup(after.groups, k) == Lookup(db.groups, k))
  {
    var w := MergeDoc(Groups, id, map[field := Str(value)]);
    assert ApplyAll(db, [w]) == Apply(db, w);
    assert Lookup(Apply(db, w).groups, id).Some?;
  }

  /** An accepted add targets a non-empty id without white space. */
  lemma AddGroupIdIsClean(a: Admin)
    requires GroupId.Trim(a.newGroupName) != ""
    ensures GroupId.DeriveId(a.newGroupName) != ""
    ensures GroupId.NoWhitespace(GroupId.DeriveId(a.newGroupName))
  {
    GroupId.DeriveIdIsStrip(a.newGroupName);
    GroupId.GuardMatchesEmptyId(a.newGroupName);
  }

  /** Adding a group is one full set of exactly `{ name, color }` at the
      derived id, whatever that id held before. */
  lemma AddGroupOverwrites(db: Db, a: Admin)
    requires GroupId.Trim(a.newGroupName) != ""
    ensures ApplyAll(db, AddGroup(a, true).writes)
         == Apply(db, SetDoc(Groups, GroupId.DeriveId(a.newGroupName), NewGroupDoc(a)))
    ensures var after := ApplyAll(db, AddGroup(a, true).writes);
      after.scores == db.scores && after.groups == db.groups[GroupId.DeriveId(a.newGroupName) := NewGroupDoc(a)]
  {
    var ws := AddGroup(a, true).writes;
    assert ApplyAll(db, ws) == Apply(db, ws[0]) by {
      assert ws[1..] == [];
    }
  }

  /** Two adds whose names derive the same id end as the second add alone
      would: one group there, with the second add's name and colour. The
      first add's fields are not merged in. */
  lemma AddSameGroupTwice(db: Db, a: Admin, b: Admin)
    requires GroupId.Trim(a.newGroupName) != "" && GroupId.Trim(b.newGroupName) != ""
    requires GroupId.DeriveId(a.newGroupName) == GroupId.DeriveId(b.newGroupName)
    ensures ApplyAll(ApplyAll(db, AddGroup(a, true).writes), AddGroup(b, true).writes)
         == ApplyAll(db, AddGroup(b, true).writes)
  {
    var id := GroupId.DeriveId(a.newGroupName);
    AddGroupOverwrites(db, a);
    AddGroupOverwrites(ApplyAll(db, AddGroup(a, true).writes), b);
    AddGroupOverwrites(db, b);
    SetLastWriteWins(db, Groups, id, NewGroupDoc(a), NewGroupDoc(b));
  }

  /** Adding "New Team" with colour `#112233`, then again with `#445566`:
      one group `NewTeam`, holding the second colour. */
  lemma NewTeamTwice(db: Db, a: Admin, b: Admin)
    requires a.newGroupName == "New Team" && a.newGroupColor == "#112233"
    requires b.newGroupName == "New Team" && b.newGroupColor == "#445566"
    ensures var after := ApplyAll(ApplyAll(db, AddGroup(a, true).writes), AddGroup(b, true).writes);
      after.groups == db.groups["NewTeam" := map["name" := Str("New Team"), "color" := Str("#445566")]]
  {
    GroupId.NewTeamExample(a.newGroupName);
    GroupId.GuardMatchesEmptyId(a.newGroupName);
    AddSameGroupTwice(db, a, b);
    AddGroupOverwrites(db, b);
  }

  /** Every group document's stored `id` field, if any, equals its key; true
      of the seeded documents and of those `handleAddGroup` writes. */
  predicate WellKeyed(groups: Collection)
  {
    forall k :: k in groups ==> Get(groups[k], "id").Undefined? || Get(groups[k], "id") == Str(k)
  }

  /** Seeding keeps every group document under its own id. */
  lemma SeedKeepsWellKeyed(db: Db)
    requires WellKeyed(db.groups)
    ensures WellKeyed(ApplyAll(db, SeedWrites()).groups)
  {
    var after := ApplyAll(db, SeedWrites()).groups;
    SeedingWritesDefaults(db);
    forall k | k in after
      ensures Get(after[k], "id").Undefined? || Get(after[k], "id") == Str(k)
    {
      if i :| 0 <= i < |DefaultGroups| && k == DefaultGroups[i].id {
        assert Lookup(after, DefaultGroups[i].id) == Some(GroupDoc(DefaultGroups[i]));
      } else {
        assert Lookup(after, k) == Lookup(db.groups, k);
      }
    }
  }

  /** An added group has no `id` field, and every other document is
      untouched, so adding a group keeps the collection well keyed. */
  lemma AddGroupKeepsWellKeyed(db: Db, a: Admin, accepted: bool)
    requires WellKeyed(db.groups)
    ensures WellKeyed(ApplyAll(db, AddGroup(a, accepted).writes).groups)
  {
    var ws := AddGroup(a, accepted).writes;
    if ws != [] {
      assert ApplyAll(db, ws) == Apply(db, ws[0]) by { assert ws[1..] == []; }
      var after := Apply(db, ws[0]).groups;
      forall k | k in after
        ensures Get(after[k], "id").Undefined? || Get(after[k], "id") == Str(k)
      {
        if k != ws[0].id {
          assert Lookup(after, k) == Lookup(db.groups, k);
        } else {
          assert Lookup(after, k) == Some(NewGroupDoc(a));
        }
      }
    }
  }

  /** Renaming or recolouring a group merges a field other than `id`, so the
      collection stays well keyed. */
  lemma UpdateGroupKeepsWellKeyed(db: Db, id: Value, field: string, value: string, accepted: bool)
    requires WellKeyed(db.groups) && field != "id"
    ensures WellKeyed(ApplyAll(db, UpdateGroup(id, field, value, accepted)).groups)
  {
    var ws := UpdateGroup(id, field, value, accepted);
    if ws != [] {
      assert ApplyAll(db, ws) == Apply(db, ws[0]) by { assert ws[1..] == []; }
      var after := Apply(db, ws[0]).groups;
      forall k | k in after
        ensures Get(after[k], "id").Undefined? || Get(after[k], "id") == Str(k)
      {
        if k != ws[0].id {
          assert Lookup(after, k) == Lookup(db.groups, k);
        } else {
          assert Lookup(after, k) == Some(Merge(Lookup(db.groups, k), ws[0].data));
          assert "id" !in ws[0].data;
        }
      }
    }
  }

  /** Deleting a group leaves every score in place; once the groups
      subscription delivers the remaining groups, scores that named the
      deleted group show `Unknown`. */
  lemma DeletedGroupShowsUnknown(db: Db, a: Admin, gid: string, batch: seq<DocSnap>, score: Doc)
    requires gid != "" && WellKeyed(db.groups)
    requires IsSnapshotOf(batch, ApplyAll(db, DeleteGroup(Str(gid), true, true)).groups)
    requires batch != []
    requires Get(score, "group") == Str(gid)
    ensures ApplyAll(db, DeleteGroup(Str(gid), true, true)).scores == db.scores
    ensures GroupLabel(OnGroupsSnapshot(a, batch).state.groupsData, score) == Str("Unknown")
  {
    var w := DeleteDoc(Groups, gid);
    assert ApplyAll(db, [w]) == Apply(db, w);
    var after := Apply(db, w);
    var rows := OnGroupsSnapshot(a, batch).state.groupsData;
    forall i | 0 <= i < |rows| ensures Get(rows[i], "id") != Str(gid) {
      var k := batch[i].id;
      assert k in after.groups && k != gid;
      assert Lookup(after.groups, k) == Lookup(db.groups, k);
      assert batch[i].data == db.groups[k];
    }
  }

  /** Deleting the only group empties the collection, so the next groups
      snapshot is empty and seeds the four defaults again: a score that named
      a default group shows that group's name once more, not `Unknown`. */
  lemma LastGroupDeleteReseeds(db: Db, a: Admin, gid: string, batch: seq<DocSnap>, score: Doc, i: int)
    requires gid != "" && db.groups.Keys == {gid}
    requires IsSnapshotOf(batch, ApplyAll(db, DeleteGroup(Str(gid), true, true)).groups)
    requires 0 <= i < |DefaultGroups| && Get(score, "group") == Str(DefaultGroups[i].id)
    ensures batch == []
    ensures OnGroupsSnapshot(a, batch).writes == SeedWrites()
    ensures GroupLabel(OnGroupsSnapshot(a, batch).state.groupsData, score) == Str(DefaultGroups[i].name)
  {
    var w := DeleteDoc(Groups, gid);
    assert ApplyAll(db, [w]) == Apply(db, w);
    var after := Apply(db, w);
    assert after.groups == map[];
    EmptySnapshot(batch, after.groups);
    var groups := DefaultGroupDocs();
    assert Get(groups[i], "id") == Str(DefaultGroups[i].id);
    forall j | 0 <= j < i ensures Get(groups[j], "id") != Str(DefaultGroups[i].id) {
      assert DefaultGroups[j].id != DefaultGroups[i].id;
    }
  }

  /** Each scores snapshot replaces the table outright: after two snapshots
      the table is the second one's, whatever the first held. */
  lemma LatestScoresSnapshotWins(a: Admin, first: seq<DocSnap>, second: seq<DocSnap>)
    ensures OnScoresSnapshot(OnScoresSnapshot(a, first), second) == OnScoresSnapshot(a, second)
  {
  }

  /** A snapshot of the scores collection puts every stored score in the
      table, one row per document, with the stored fields other than `id`. */
  lemma ScoresTableMirrorsCollection(a: Admin, scores: Collection, batch: seq<DocSnap>, k: string, f: string)
    requires IsSnapshotOf(batch, scores)
    requires k in scores && f != "id"
    ensures exists i :: 0 <= i < |batch| && batch[i].id == k
              && Get(OnScoresSnapshot(a, batch).recentScores[i], f) == Get(scores[k], f)
  {
    var i :| 0 <= i < |batch| && batch[i].id == k;
    assert Get(OnScoresSnapshot(a, batch).recentScores[i], f) == Get(scores[k], f);
  }
}
