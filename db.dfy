/** The document store (one mongoose collection per model, each held in
    insertion order) and the public `uploads` directory. */
module Db {
  import opened Wrappers
  import opened UserModel
  import opened ContactModel
  import opened AnnouncementModel
  import opened Http

  class UserCollection {
    var docs: seq<User>

    /** Every stored user passed validation and the unique indexes. */
    ghost predicate Valid()
      reads this
    {
      UniqueKeys(docs) && forall i :: 0 <= i < |docs| ==> ValidUser(docs[i])
    }

    constructor ()
      ensures Valid() && docs == []
    {
      docs := [];
    }

    /** `user.save()`: validates, then inserts unless a unique index refuses. */
    method Save(u: User) returns (ok: bool)
      requires Valid()
      modifies this
      ensures Valid()
      ensures ok == CanInsertUser(old(docs), u)
      ensures docs == if ok then old(docs) + [u] else old(docs)
    {
      ok := CanInsertUser(docs, u);
      if ok {
        InsertKeepsUnique(docs, u);
        docs := docs + [u];
      }
    }
  }

  class ContactCollection {
    var docs: seq<Contact>

    ghost predicate Valid()
      reads this
    {
      forall i :: 0 <= i < |docs| ==> ValidContact(docs[i])
    }

    constructor ()
      ensures Valid() && docs == []
    {
      docs := [];
    }

    method Save(c: Contact) returns (ok: bool)
      requires Valid()
      modifies this
      ensures Valid()
      ensures ok == CanInsertContact(old(docs), c)
      ensures docs == if ok then old(docs) + [c] else old(docs)
    {
      ok := CanInsertContact(docs, c);
      if ok {
        docs := docs + [c];
      }
    }
  }

  class AnnouncementCollection {
    var docs: seq<Announcement>

    ghost predicate Valid()
      reads this
    {
      forall i :: 0 <= i < |docs| ==> ValidAnnouncement(docs[i])
    }

    constructor ()
      ensures Valid() && docs == []
    {
      docs := [];
    }

    method Save(a: Announcement) returns (ok: bool)
      requires Valid()
      modifies this
      ensures Valid()
      ensures ok == CanInsertAnnouncement(old(docs), a)
      ensures docs == if ok then old(docs) + [a] else old(docs)
    {
      ok := CanInsertAnnouncement(docs, a);
      if ok {
        docs := docs + [a];
      }
    }
  }

  /** `public/uploads`: whether the directory exists, and its files. */
  class UploadDir {
    var present: bool
    var files: map<string, seq<Byte>>

    constructor ()
      ensures !present && files == map[]
    {
      present := false;
      files := map[];
    }

    /** `if (!fs.existsSync(dir)) fs.mkdirSync(dir, { recursive: true })`;
        `succeeds` is whether `mkdirSync` would succeed, and `ok` is false
        exactly when it is called and throws. */
    method EnsureExists(succeeds: bool) returns (ok: bool)
      modifies this
      ensures ok == (old(present) || succeeds)
      ensures present == ok && files == old(files)
    {
      if !present {
        present := succeeds;
      }
      ok := present;
    }

    /** `fs.writeFileSync(path, buffer)`: creates or overwrites the file, or
        throws (`succeeds` false) and leaves the files as they were. */
    method WriteFile(name: string, bytes: seq<Byte>, succeeds: bool) returns (ok: bool)
      requires present
      modifies this
      ensures ok == succeeds && present
      ensures files == if ok then old(files)[name := bytes] else old(files)
    {
      ok := succeeds;
      if ok {
        files := files[name := bytes];
      }
    }
  }
}
