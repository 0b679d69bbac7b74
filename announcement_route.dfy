/** `GET` and `POST /api/announcement`: list the announcements newest first,
    and create one from a multipart form with an optional cover image. */
module AnnouncementRoute {
  import opened Wrappers
  import opened Text
  import opened Sorting
  import opened AnnouncementModel
  import opened Db
  import opened Http

  /** The multipart form; `None` is a field `formData.get` returns `null`
      for. */
  datatype AnnouncementForm = AnnouncementForm(
    title: Option<string>,
    content: Option<string>,
    coverImage: Option<Upload>)

  datatype Reply = Announcements(items: seq<Announcement>) | Created(announcement: Announcement) | Problem(message: string)

  const MissingFields := "Title and content are required"
  const CreateFailed := "Failed to create announcement"

  /** `sort({ createdAt: -1 })`: `a` may stay before `b` when it is no older. */
  function NewestFirst(a: Announcement, b: Announcement): bool
  {
    a.createdAt >= b.createdAt
  }

  lemma NewestFirstIsTotalPreorder()
    ensures TotalPreorder(NewestFirst)
  {
  }

  /** `GET`: every stored announcement, newest first. */
  method Get(anns: AnnouncementCollection) returns (resp: Response<Reply>)
    ensures resp.status == 200 && resp.body.Announcements?
    ensures multiset(resp.body.items) == multiset(anns.docs)
    ensures forall i, j :: 0 <= i < j < |resp.body.items| ==>
              resp.body.items[i].createdAt >= resp.body.items[j].createdAt
  {
    var sorted := SortBy(anns.docs, NewestFirst);
    NewestFirstIsTotalPreorder();
    SortBySorted(anns.docs, NewestFirst);
    resp := Response(200, Announcements(sorted));
  }

  predicate HasRequired(f: AnnouncementForm)
  {
    Truthy(f.title) && Truthy(f.content)
  }

  /** The stored name of the cover: any file given is kept, even an empty one,
      under `${Date.now()}-${name}`. */
  function CoverName(cover: Option<Upload>, now: nat): (r: Option<string>)
    ensures r.Some? <==> cover.Some?
    ensures r.Some? ==> UploadTime(r.value) == Some(now) && OriginalName(r.value) == cover.value.name
  {
    if cover.Some? then
      UploadNameRoundTrip(now, cover.value.name);
      Some(UploadName(now, cover.value.name))
    else None
  }

  /** `new Announcement({...})`, saved at `savedAt`: `timestamps` sets both
      time stamps to the moment of the save. */
  function NewRecord(f: AnnouncementForm, cover: Option<string>, id: string, savedAt: int): (a: Announcement)
    requires HasRequired(f)
    ensures ValidAnnouncement(a)
    ensures a.title == f.title.value && a.content == f.content.value && a.coverImage == cover
    ensures a.id == id && a.createdAt == savedAt && a.updatedAt == savedAt
  {
    Announcement(id, f.title.value, f.content.value, cover, savedAt, savedAt)
  }

  /** `POST`; `form` is `None` when `req.formData()` throws, `now` is
      `Date.now()`, `savedAt` the time the document is saved, and
      `mkdirSucceeds` and `writeSucceeds` say whether `fs.mkdirSync` and
      `fs.writeFileSync` would succeed. The uploads directory is created
      only when there is a cover to write; a failing file system call
      answers 500 with no announcement saved. */
  method Post(anns: AnnouncementCollection, dir: UploadDir, form: Option<AnnouncementForm>,
              now: nat, newId: string, savedAt: int, mkdirSucceeds: bool, writeSucceeds: bool)
    returns (resp: Response<Reply>)
    requires anns.Valid()
    modifies anns, dir
    ensures anns.Valid()
    ensures form.None? || !HasRequired(form.value) ==>
      && anns.docs == old(anns.docs)
      && dir.present == old(dir.present) && dir.files == old(dir.files)
      && resp == (if form.None? then Response(500, Problem(CreateFailed))
                  else Response(400, Problem(MissingFields)))
    ensures form.Some? && HasRequired(form.value) ==>
      var name := CoverName(form.value.coverImage, now);
      var a := NewRecord(form.value, name, newId, savedAt);
      var filesOk := name.None? || ((old(dir.present) || mkdirSucceeds) && writeSucceeds);
      && dir.present == (old(dir.present) || (name.Some? && mkdirSucceeds))
      && dir.files == (if name.Some? && filesOk
                       then old(dir.files)[name.value := form.value.coverImage.value.bytes]
                       else old(dir.files))
      && if filesOk && CanInsertAnnouncement(old(anns.docs), a)
         then anns.docs == old(anns.docs) + [a] && resp == Response(201, Created(a))
         else anns.docs == old(anns.docs) && resp == Response(500, Problem(CreateFailed))
  {
    if form.None? {
      return Response(500, Problem(CreateFailed));
    }
    var f := form.value;
    if !HasRequired(f) {
      return Response(400, Problem(MissingFields));
    }
    var name := CoverName(f.coverImage, now);
    if name.Some? {
      var dirOk := dir.EnsureExists(mkdirSucceeds);
      if !dirOk {
        return Response(500, Problem(CreateFailed));
      }
      var written := dir.WriteFile(name.value, f.coverImage.value.bytes, writeSucceeds);
      if !written {
        return Response(500, Problem(CreateFailed));
      }
    }
    var a := NewRecord(f, name, newId, savedAt);
    var saved := anns.Save(a);
    if saved {
      resp := Response(201, Created(a));
    } else {
      resp := Response(500, Problem(CreateFailed));
    }
  }

  /** A new announcement, saved last, is listed first when it is the newest
      (no stored one is younger). */
  lemma {:induction false} NewestListedFirst(s: seq<Announcement>, a: Announcement)
    requires forall i :: 0 <= i < |s| ==> s[i].createdAt <= a.createdAt
    ensures SortBy(s + [a], NewestFirst)[0].createdAt == a.createdAt
  {
    NewestFirstIsTotalPreorder();
    SortBySorted(s + [a], NewestFirst);
    var r := SortBy(s + [a], NewestFirst);
    assert a in multiset(s + [a]);
    assert a in multiset(r);
    var k :| 0 <= k < |r| && r[k] == a;
    assert r[0] in multiset(s + [a]);
    assert r[0] in s + [a];
  }
}
