/** `GET` and `POST /api/contacts`: list every contact, and create one from a
    multipart form, storing its profile picture in the uploads directory. */
module ContactsRoute {
  import opened Wrappers
  import opened Text
  import opened ContactModel
  import opened Db
  import opened Http

  /** The multipart form; `None` is a field `formData.get` returns `null`
      for. */
  datatype ContactForm = ContactForm(
    name: Option<string>,
    faculty: Option<string>,
    role: Option<string>,
    department: Option<string>,
    email: Option<string>,
    phone: Option<string>,
    facebook: Option<string>,
    line: Option<string>,
    gender: Option<string>,
    profilePicture: Option<Upload>)

  datatype Reply = Contacts(contacts: seq<Contact>) | Created(contact: Contact) | Problem(message: string)

  const MissingFields := "Missing required fields"
  const CreateFailed := "Failed to create contact"

  /** The fixed creator every new contact is attributed to. */
  const AdminId := "64a7e91e8f29d14fca8a4b34"

  predicate HasRequired(f: ContactForm)
  {
    Truthy(f.name) && Truthy(f.faculty) && Truthy(f.role) && Truthy(f.gender)
  }

  /** The stored name of the picture: only a non-empty file is kept, under
      `${Date.now()}-${name}`. */
  function PictureName(picture: Option<Upload>, now: nat): (r: Option<string>)
    ensures r.Some? <==> picture.Some? && |picture.value.bytes| > 0
    ensures r.Some? ==> UploadTime(r.value) == Some(now) && OriginalName(r.value) == picture.value.name
  {
    if picture.Some? && |picture.value.bytes| > 0 then
      UploadNameRoundTrip(now, picture.value.name);
      Some(UploadName(now, picture.value.name))
    else None
  }

  /** `new Contact({...})`: the text fields as submitted, the picture's
      stored name, and the fixed creator. */
  function NewRecord(f: ContactForm, picture: Option<string>, id: string): (c: Contact)
    ensures ValidContact(c) && c.createdBy == Some(AdminId)
    ensures c.id == id && c.profilePicture == picture
    ensures c.name == f.name && c.faculty == f.faculty && c.role == f.role && c.gender == f.gender
    ensures c.department == f.department && c.email == f.email && c.phone == f.phone
    ensures c.facebook == f.facebook && c.line == f.line
  {
    Contact(id, f.name, f.faculty, f.role, f.department, f.email, f.phone,
            f.facebook, f.line, f.gender, picture, Some(AdminId))
  }

  /** `GET`: every stored contact, in storage order. */
  method Get(contacts: ContactCollection) returns (resp: Response<Reply>)
    ensures resp.status == 200 && resp.body.Contacts?
    ensures forall c :: c in resp.body.contacts <==> c in contacts.docs
    ensures |resp.body.contacts| == |contacts.docs|
  {
    resp := Response(200, Contacts(contacts.docs));
  }

  /** `POST`; `form` is `None` when `req.formData()` throws, `now` is
      `Date.now()`, and `mkdirSucceeds` and `writeSucceeds` say whether
      `fs.mkdirSync` and `fs.writeFileSync` would succeed. The directory is
      created and the picture written before the contact is saved: a failing
      file system call answers 500 with no contact saved, and a failed save
      leaves the file behind. */
  method Post(contacts: ContactCollection, dir: UploadDir, form: Option<ContactForm>,
              now: nat, newId: string, mkdirSucceeds: bool, writeSucceeds: bool)
    returns (resp: Response<Reply>)
    requires contacts.Valid()
    modifies contacts, dir
    ensures contacts.Valid()
    ensures form.None? || !HasRequired(form.value) ==>
      && contacts.docs == old(contacts.docs)
      && dir.present == old(dir.present) && dir.files == old(dir.files)
      && resp == (if form.None? then Response(500, Problem(CreateFailed))
                  else Response(400, Problem(MissingFields)))
    ensures form.Some? && HasRequired(form.value) ==>
      var name := PictureName(form.value.profilePicture, now);
      var c := NewRecord(form.value, name, newId);
      var dirOk := old(dir.present) || mkdirSucceeds;
      var filesOk := dirOk && (name.None? || writeSucceeds);
      && dir.present == dirOk
      && dir.files == (if name.Some? && filesOk
                       then old(dir.files)[name.value := form.value.profilePicture.value.bytes]
                       else old(dir.files))
      && if filesOk && CanInsertContact(old(contacts.docs), c)
         then contacts.docs == old(contacts.docs) + [c] && resp == Response(201, Created(c))
         else contacts.docs == old(contacts.docs) && resp == Response(500, Problem(CreateFailed))
  {
    if form.None? {
      return Response(500, Problem(CreateFailed));
    }
    var f := form.value;
    if !HasRequired(f) {
      return Response(400, Problem(MissingFields));
    }
    var dirOk := dir.EnsureExists(mkdirSucceeds);
    if !dirOk {
      return Response(500, Problem(CreateFailed));
    }
    var name := PictureName(f.profilePicture, now);
    if name.Some? {
      var written := dir.WriteFile(name.value, f.profilePicture.value.bytes, writeSucceeds);
      if !written {
        return Response(500, Problem(CreateFailed));
      }
    }
    var c := NewRecord(f, name, newId);
    var saved := contacts.Save(c);
    if saved {
      resp := Response(201, Created(c));
    } else {
      resp := Response(500, Problem(CreateFailed));
    }
  }
}
