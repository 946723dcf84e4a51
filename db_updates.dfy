/** The record updates the pages apply to `db` through `setDb(prev => ...)`. Each one builds a
    new database from the previous one: it replaces one list and copies every other field
    (the `...prev` spread). Fresh ids come from a random generator and are parameters here. */
module DbUpdates {
  import opened Records
  import opened Lists

  function OtherThan(id: int): Post -> bool {
    (p: Post) => p.id != id
  }

  /** `removePost(id)`: keeps the posts whose id differs, in their order. */
  function RemovePost(db: Db, id: int): (r: Db)
    ensures r == db.(anonymousPosts := r.anonymousPosts)
    ensures IsSubsequence(r.anonymousPosts, db.anonymousPosts)
    ensures forall p :: p in r.anonymousPosts <==> p in db.anonymousPosts && p.id != id
    ensures forall p: Post :: p.id != id ==> multiset(r.anonymousPosts)[p] == multiset(db.anonymousPosts)[p]
  {
    db.(anonymousPosts := Keep(db.anonymousPosts, OtherThan(id)))
  }

  /** `toggleReported(id)`: flips `reported` on every post with that id; position, order and
      every other field stay as they were. */
  function ToggleReported(db: Db, id: int): (r: Db)
    ensures r == db.(anonymousPosts := r.anonymousPosts)
    ensures |r.anonymousPosts| == |db.anonymousPosts|
    ensures forall k :: 0 <= k < |db.anonymousPosts| ==>
      r.anonymousPosts[k] == db.anonymousPosts[k].(reported := r.anonymousPosts[k].reported)
    ensures forall k :: 0 <= k < |db.anonymousPosts| ==>
      (r.anonymousPosts[k].reported != db.anonymousPosts[k].reported <==> db.anonymousPosts[k].id == id)
  {
    var posts := db.anonymousPosts;
    db.(anonymousPosts := seq(|posts|, k requires 0 <= k < |posts| =>
      if posts[k].id == id then posts[k].(reported := !posts[k].reported) else posts[k]))
  }

  /** Reporting and then unmarking (or the reverse) gives back the database it started from. */
  lemma ToggleTwiceRestores(db: Db, id: int)
    ensures ToggleReported(ToggleReported(db, id), id) == db
  {
  }

  /** Removing a post leaves no post with that id behind, and removing it again changes nothing. */
  lemma RemovePostIdempotent(db: Db, id: int)
    ensures forall p :: p in RemovePost(db, id).anonymousPosts ==> p.id != id
    ensures RemovePost(RemovePost(db, id), id) == RemovePost(db, id)
  {
    KeepEverything(RemovePost(db, id).anonymousPosts, OtherThan(id));
  }

  /** `deactivate(id)`: sets status "Inactive" on every counsellor with that id; position,
      order and every other field stay as they were. */
  function Deactivate(db: Db, id: string): (r: Db)
    ensures r == db.(counsellors := r.counsellors)
    ensures |r.counsellors| == |db.counsellors|
    ensures forall k :: 0 <= k < |db.counsellors| ==>
      r.counsellors[k] == db.counsellors[k].(status := r.counsellors[k].status)
    ensures forall k :: 0 <= k < |db.counsellors| ==>
      r.counsellors[k].status == if db.counsellors[k].id == id then "Inactive" else db.counsellors[k].status
  {
    var cs := db.counsellors;
    db.(counsellors := seq(|cs|, k requires 0 <= k < |cs| =>
      if cs[k].id == id then cs[k].(status := "Inactive") else cs[k]))
  }

  /** Deactivating twice is the same as deactivating once. */
  lemma DeactivateIdempotent(db: Db, id: string)
    ensures Deactivate(Deactivate(db, id), id) == Deactivate(db, id)
  {
  }

  /** The create-counsellor form's submit: with matching passwords, the new active counsellor
      (with no appointments field) goes in front of the previous list; otherwise nothing
      changes. The password itself is not stored. */
  function CreateCounsellor(db: Db, newId: string, name: string, gender: string,
                            password: string, confirm: string): (r: Db)
    ensures password != confirm ==> r == db
    ensures password == confirm ==>
      && r == db.(counsellors := r.counsellors)
      && |r.counsellors| == |db.counsellors| + 1
      && r.counsellors[0] == Counsellor(newId, name, gender, "Active", None)
      && r.counsellors[1..] == db.counsellors
  {
    if password != confirm then db
    else db.(counsellors := [Counsellor(newId, name, gender, "Active", None)] + db.counsellors)
  }

  /** Creating a counsellor under an id nobody holds and then deactivating that id touches
      only the new counsellor. (The random id can collide with an existing one; then the
      older counsellor would be deactivated too.) */
  lemma DeactivateFreshCounsellor(db: Db, newId: string, name: string, gender: string, password: string)
    requires forall c :: c in db.counsellors ==> c.id != newId
    ensures Deactivate(CreateCounsellor(db, newId, name, gender, password, password), newId).counsellors
      == [Counsellor(newId, name, gender, "Inactive", None)] + db.counsellors
  {
    var before := CreateCounsellor(db, newId, name, gender, password, password).counsellors;
    var after := Deactivate(CreateCounsellor(db, newId, name, gender, password, password), newId).counsellors;
    forall k | 1 <= k < |after|
      ensures after[k] == db.counsellors[k - 1]
    {
      assert before[k] == db.counsellors[k - 1];
      assert db.counsellors[k - 1] in db.counsellors;
    }
  }

  /** The notification form's fields. */
  datatype NotificationForm = NotificationForm(
    title: string, desc: string, date: string, time: string, audience: string)

  /** The notification form's submit: the form plus a fresh id and status "Sent" goes in
      front of the previous notifications. */
  function SendNotification(db: Db, newId: string, form: NotificationForm): (r: Db)
    ensures r == db.(notifications := r.notifications)
    ensures |r.notifications| == |db.notifications| + 1
    ensures r.notifications[0] == Notification(newId, form.title, form.desc, form.date, form.time, form.audience, "Sent")
    ensures r.notifications[1..] == db.notifications
  {
    var payload := Notification(newId, form.title, form.desc, form.date, form.time, form.audience, "Sent");
    db.(notifications := [payload] + db.notifications)
  }
}
