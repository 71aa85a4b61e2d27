/** The chat server's `/api/chat` routes as operations of an in-memory chat collection.
    The caller's id and role come from the authentication middleware and the user
    collection is read as a snapshot; both are plain inputs here. */
module ChatRoutes {
  import opened Common
  import opened Text
  import opened Collections
  import opened ChatSchema

  datatype Role = Doctor | Patient | OtherRole

  /** A record of the server's user collection, as far as the chat routes read it. */
  datatype User = User(id: Id, name: string, username: string, role: Role)

  /** The projection `select('_id name username')`. */
  datatype PatientSummary = PatientSummary(id: Id, name: string, username: string)

  /** `User.findById(id)`. */
  function FindUser(users: seq<User>, id: Id): (r: Option<User>)
    ensures r.None? <==> forall u <- users :: u.id != id
    ensures r.Some? ==> r.value in users && r.value.id == id
  {
    if users == [] then None
    else if users[0].id == id then Some(users[0])
    else FindUser(users[1..], id)
  }

  /** `User.findOne({role: 'doctor'})`: the first doctor in stored order. */
  function FirstDoctor(users: seq<User>): (r: Option<nat>)
    ensures r.None? <==> forall u <- users :: u.role != Doctor
    ensures r.Some? ==> r.value < |users| && users[r.value].role == Doctor
                        && forall j :: 0 <= j < r.value ==> users[j].role != Doctor
  {
    if users == [] then None
    else if users[0].role == Doctor then Some(0)
    else
      var r := FirstDoctor(users[1..]);
      if r.Some? then Some(r.value + 1) else None
  }

  function Summary(u: User): PatientSummary {
    PatientSummary(u.id, u.name, u.username)
  }

  function Summaries(users: seq<User>): (r: seq<PatientSummary>)
    ensures |r| == |users| && forall k :: 0 <= k < |r| ==> r[k] == Summary(users[k])
  {
    seq(|users|, k requires 0 <= k < |users| => Summary(users[k]))
  }

  /** `sort({name: 1})` on the projected records. */
  predicate NameLe(a: PatientSummary, b: PatientSummary) {
    CodePointLe(a.name, b.name)
  }

  lemma NameLeIsTotalPreorder()
    ensures TotalPreorder(NameLe)
  {
    forall x: PatientSummary, y: PatientSummary ensures NameLe(x, y) || NameLe(y, x) {
      CodePointLeTotal(x.name, y.name);
    }
    forall x: PatientSummary, y: PatientSummary, z: PatientSummary | NameLe(x, y) && NameLe(y, z)
      ensures NameLe(x, z)
    {
      CodePointLeTransitive(x.name, y.name, z.name);
    }
  }

  predicate IsPatient(u: User) {
    u.role == Patient
  }

  /** `GET /patients`: doctors only; the patients' id, name and username, by name. */
  function ListPatients(role: Role, users: seq<User>): (r: Response<seq<PatientSummary>>)
    ensures r == Forbidden <==> role != Doctor
    ensures r.Ok? <==> role == Doctor
    ensures r.Ok? ==> SortedBy(r.value, NameLe)
    ensures r.Ok? ==> multiset(r.value) == multiset(Summaries(Filter(users, IsPatient)))
    ensures r.Ok? ==> forall s :: s in r.value <==> exists u :: u in users && u.role == Patient && s == Summary(u)
  {
    if role != Doctor then Forbidden
    else
      var patients := Filter(users, IsPatient);
      NameLeIsTotalPreorder();
      var sorted := Sort(Summaries(patients), NameLe);
      SortedMembers(Summaries(patients), NameLe);
      assert forall s :: s in Summaries(patients) <==> exists u :: u in users && u.role == Patient && s == Summary(u) by {
        forall s ensures s in Summaries(patients) <==> exists u :: u in users && u.role == Patient && s == Summary(u) {
          if s in Summaries(patients) {
            var k :| 0 <= k < |patients| && Summaries(patients)[k] == s;
            assert patients[k] in patients;
          }
          if exists u :: u in users && u.role == Patient && s == Summary(u) {
            var u :| u in users && u.role == Patient && s == Summary(u);
            var k :| 0 <= k < |patients| && patients[k] == u;
            assert Summaries(patients)[k] == s;
          }
        }
      }
      Ok(sorted)
  }

  /** The caller's side of a chat: the doctor for doctors, the patient for everyone else. */
  predicate BelongsTo(c: Chat, callerId: Id, role: Role) {
    if role == Doctor then c.doctor == callerId else c.patient == callerId
  }

  predicate IsParticipant(c: Chat, callerId: Id) {
    c.doctor == callerId || c.patient == callerId
  }

  /** `sort({lastMessage: -1})`: most recent activity first. */
  predicate LaterOrSame(a: Chat, b: Chat) {
    a.lastMessage >= b.lastMessage
  }

  /** `Chat.findById(id)`: the position of the chat with that id. */
  function IndexOfId(chats: seq<Chat>, id: Id): (r: Option<nat>)
    ensures r.None? <==> forall c <- chats :: c.id != id
    ensures r.Some? ==> r.value < |chats| && chats[r.value].id == id
  {
    if chats == [] then None
    else if chats[0].id == id then Some(0)
    else
      var r := IndexOfId(chats[1..], id);
      if r.Some? then Some(r.value + 1) else None
  }

  /** `Chat.findOne({doctor, patient})`. */
  function PairChat(chats: seq<Chat>, doctor: Id, patient: Id): (r: Option<Chat>)
    ensures r.None? <==> forall c <- chats :: !(c.doctor == doctor && c.patient == patient)
    ensures r.Some? ==> r.value in chats && r.value.doctor == doctor && r.value.patient == patient
  {
    if chats == [] then None
    else if chats[0].doctor == doctor && chats[0].patient == patient then Some(chats[0])
    else PairChat(chats[1..], doctor, patient)
  }

  predicate UniqueIds(chats: seq<Chat>) {
    forall i, j :: 0 <= i < j < |chats| ==> chats[i].id != chats[j].id
  }

  /** The unique index check a save runs: no other chat holds the document's pair. */
  predicate PairFree(chats: seq<Chat>, doc: Chat) {
    forall c <- chats :: c.id != doc.id ==> !(c.patient == doc.patient && c.doctor == doc.doctor)
  }

  /** The collection write of a save: the stored chat with `d`'s id is replaced by `d`,
      or `d` is added when no chat has that id; ids stay unique. */
  function Upsert(chats: seq<Chat>, d: Chat): (r: seq<Chat>)
    requires UniqueIds(chats)
    ensures d in r && UniqueIds(r)
    ensures (exists c <- chats :: c.id == d.id) ==>
              |r| == |chats| && forall k :: 0 <= k < |chats| ==> r[k] == (if chats[k].id == d.id then d else chats[k])
    ensures (forall c <- chats :: c.id != d.id) ==> r == chats + [d]
  {
    match IndexOfId(chats, d.id)
    case None => chats + [d]
    case Some(i) =>
      var r := chats[i := d];
      assert r[i] == d;
      r
  }

  /** The outcome of a find-or-create for (doctor, patient) that started from
      `before`/`nextBefore`: the existing chat, untouched, or one new empty chat. */
  ghost predicate Opened(before: seq<Chat>, nextBefore: Id, after: seq<Chat>, nextAfter: Id,
                         doctor: Id, patient: Id, now: Time, chat: Chat)
  {
    match PairChat(before, doctor, patient)
    case Some(c) => chat == c && after == before && nextAfter == nextBefore
    case None => chat == NewChat(nextBefore, patient, doctor, now) && after == before + [chat]
                 && nextAfter == nextBefore + 1
  }

  /** A second find-or-create for the same pair returns the same chat and adds nothing,
      whatever the clock says the second time. */
  lemma OpenTwice(before: seq<Chat>, n0: Id, mid: seq<Chat>, n1: Id, after: seq<Chat>, n2: Id,
                  doctor: Id, patient: Id, now1: Time, now2: Time, first: Chat, second: Chat)
    requires Opened(before, n0, mid, n1, doctor, patient, now1, first)
    requires Opened(mid, n1, after, n2, doctor, patient, now2, second)
    ensures second == first && after == mid && n2 == n1
  {
  }

  /** Rewriting a stored chat with its own id and pair never clashes with the unique index. */
  lemma SamePairIsFree(chats: seq<Chat>, i: nat, doc: Chat)
    requires UniquePairs(chats) && UniqueIds(chats) && i < |chats|
    requires doc.id == chats[i].id && doc.patient == chats[i].patient && doc.doctor == chats[i].doctor
    ensures PairFree(chats, doc)
  {
    forall c <- chats | c.id != doc.id ensures !(c.patient == doc.patient && c.doctor == doc.doctor) {
      var j :| 0 <= j < |chats| && chats[j] == c;
      assert j != i;
    }
  }

  /** What the send handler saves: the message appended and `lastMessage` set to the
      second clock reading, which the hook then replaces with the message's timestamp. */
  lemma PostedDocument(c: Chat, m: Message, t2: Time)
    ensures PreSave(c.(messages := c.messages + [m], lastMessage := t2))
            == c.(messages := c.messages + [m], lastMessage := m.timestamp)
  {
  }

  class ChatStore {
    var chats: seq<Chat>
    /** The ObjectId generator: the next id to hand out. */
    var nextId: Id

    ghost predicate Valid()
      reads this
    {
      && UniqueIds(chats)
      && (forall c <- chats :: c.id < nextId)
      && UniquePairs(chats)
      && (forall c <- chats :: ValidChat(c))
    }

    constructor ()
      ensures Valid() && chats == [] && nextId == 0
    {
      chats := [];
      nextId := 0;
    }

    /** `chat.save()`: schema validation, then the `pre('save')` hook, then the write,
        which the unique (patient, doctor) index refuses when another chat holds the pair.
        Either the whole document is written or nothing is. */
    method Save(doc: Chat) returns (ok: bool)
      requires Valid() && doc.id < nextId
      modifies this
      ensures Valid() && nextId == old(nextId)
      ensures ok <==> (forall m <- doc.messages :: ValidMessage(m)) && PairFree(old(chats), doc)
      ensures chats == if ok then Upsert(old(chats), PreSave(doc)) else old(chats)
    {
      ok := (forall m <- doc.messages :: ValidMessage(m)) && PairFree(chats, doc);
      if !ok {
        return;
      }
      var d := doc;
      if |d.messages| > 0 {
        d := d.(lastMessage := d.messages[|d.messages| - 1].timestamp);
      }
      assert d == PreSave(doc);
      var i := IndexOfId(chats, d.id);
      if i.Some? {
        chats := chats[i.value := d];
      } else {
        chats := chats + [d];
      }
    }

    /** The find-or-create both `/with-patient` and `/with-doctor` perform. */
    method FindOrCreate(doctor: Id, patient: Id, now: Time) returns (chat: Chat)
      requires Valid()
      modifies this
      ensures Valid()
      ensures Opened(old(chats), old(nextId), chats, nextId, doctor, patient, now, chat)
      ensures chat in chats && chat.doctor == doctor && chat.patient == patient
    {
      var found := PairChat(chats, doctor, patient);
      if found.Some? {
        return found.value;
      }
      var doc := NewChat(nextId, patient, doctor, now);
      nextId := nextId + 1;
      var ok := Save(doc);
      assert ok;
      var saved := IndexOfId(chats, doc.id);
      chat := chats[saved.value];
    }

    /** `GET /with-patient/:patientId`: doctors only; the patient id must name a user
        (of any role); then find-or-create for (caller, patient). */
    method WithPatient(callerId: Id, role: Role, patientId: Id, users: seq<User>, now: Time)
      returns (r: Response<Chat>)
      requires Valid()
      modifies this
      ensures Valid()
      ensures role != Doctor ==> r == Forbidden && chats == old(chats) && nextId == old(nextId)
      ensures role == Doctor && FindUser(users, patientId).None? ==>
                r == NotFound && chats == old(chats) && nextId == old(nextId)
      ensures role == Doctor && FindUser(users, patientId).Some? ==>
                r.Ok? && Opened(old(chats), old(nextId), chats, nextId, callerId, patientId, now, r.value)
    {
      if role != Doctor {
        return Forbidden;
      }
      var patient := FindUser(users, patientId);
      if patient.None? {
        return NotFound;
      }
      var chat := FindOrCreate(callerId, patientId, now);
      r := Ok(chat);
    }

    /** `POST /with-doctor`: patients only; pairs the caller with the first doctor found. */
    method WithDoctor(callerId: Id, role: Role, users: seq<User>, now: Time) returns (r: Response<Chat>)
      requires Valid()
      modifies this
      ensures Valid()
      ensures role != Patient ==> r == Forbidden && chats == old(chats) && nextId == old(nextId)
      ensures role == Patient && FirstDoctor(users).None? ==>
                r == NotFound && chats == old(chats) && nextId == old(nextId)
      ensures role == Patient && FirstDoctor(users).Some? ==>
                r.Ok? && Opened(old(chats), old(nextId), chats, nextId, users[FirstDoctor(users).value].id, callerId, now, r.value)
    {
      if role != Patient {
        return Forbidden;
      }
      var doctor := FirstDoctor(users);
      if doctor.None? {
        return NotFound;
      }
      var chat := FindOrCreate(users[doctor.value].id, callerId, now);
      r := Ok(chat);
    }

    /** `POST /:chatId/messages`. The handler reads the clock twice: `t1` stamps the
        message, `t2` is assigned to `lastMessage`, which the save hook then overwrites. */
    method SendMessage(callerId: Id, chatId: Id, content: Option<string>, t1: Time, t2: Time)
      returns (r: Response<Chat>)
      requires Valid()
      modifies this
      ensures Valid() && nextId == old(nextId)
      ensures IndexOfId(old(chats), chatId).None? ==> r == NotFound && chats == old(chats)
      ensures IndexOfId(old(chats), chatId).Some? ==>
                var before := old(chats)[IndexOfId(old(chats), chatId).value];
                (!IsParticipant(before, callerId) ==> r == Forbidden && chats == old(chats))
      ensures IndexOfId(old(chats), chatId).Some? ==>
                var before := old(chats)[IndexOfId(old(chats), chatId).value];
                (IsParticipant(before, callerId) && (content.None? || AllWhitespace(content.value)) ==>
                   r == ServerError && chats == old(chats))
      ensures IndexOfId(old(chats), chatId).Some? ==>
                var before := old(chats)[IndexOfId(old(chats), chatId).value];
                (IsParticipant(before, callerId) && content.Some? && !AllWhitespace(content.value) ==> r.Ok?)
      ensures r.Ok? ==>
                var i := IndexOfId(old(chats), chatId).value;
                var before := old(chats)[i];
                && content.Some?
                && |chats| == |old(chats)|
                && (forall j :: 0 <= j < |chats| && j != i ==> chats[j] == old(chats)[j])
                && chats[i].messages == before.messages + [Message(callerId, Trim(content.value), t1)]
                && chats[i].lastMessage == t1
                && chats[i] == before.(messages := chats[i].messages, lastMessage := t1)
                && r.value == chats[i]
    {
      var idx := IndexOfId(chats, chatId);
      if idx.None? {
        return NotFound;
      }
      var chat := chats[idx.value];
      if chat.doctor != callerId && chat.patient != callerId {
        return Forbidden;
      }
      var message := CastMessage(MessageInput(Some(callerId), content, Some(t1)), t1);
      if message.None? {
        // `save()` rejects the document with a validation error
        return ServerError;
      }
      var doc := chat.(messages := chat.messages + [message.value]);
      doc := doc.(lastMessage := t2);
      SamePairIsFree(chats, idx.value, doc);
      PostedDocument(chat, message.value, t2);
      var ok := Save(doc);
      assert ok;
      assert chats == old(chats)[idx.value := chat.(messages := doc.messages, lastMessage := t1)];
      var updated := IndexOfId(chats, chatId);
      assert updated == idx by {
        assert chats[idx.value].id == chatId;
      }
      r := Ok(chats[updated.value]);
    }

    /** `GET /`: the caller's chats, most recent activity first. */
    function ListChats(callerId: Id, role: Role): (r: Response<seq<Chat>>)
      reads this
      ensures r.Ok?
      ensures SortedBy(r.value, LaterOrSame)
      ensures forall c :: multiset(r.value)[c] == if BelongsTo(c, callerId, role) then multiset(chats)[c] else 0
      ensures forall c :: c in r.value <==> c in chats && BelongsTo(c, callerId, role)
    {
      var mine := Filter(chats, c => BelongsTo(c, callerId, role));
      assert TotalPreorder(LaterOrSame);
      var sorted := Sort(mine, LaterOrSame);
      SortedMembers(mine, LaterOrSame);
      Ok(sorted)
    }

    /** `GET /:chatId/messages`. The participant test reads `_id` of the populated
        doctor and patient; a reference to a user that no longer exists populates as
        null and the handler throws (a 500). The `&&` short-circuits, so the patient is
        only read when the caller is not the doctor. */
    function GetMessages(callerId: Id, chatId: Id, users: seq<User>): (r: Response<seq<Message>>)
      reads this
      ensures r == NotFound <==> IndexOfId(chats, chatId).None?
      ensures r.Ok? ==> IndexOfId(chats, chatId).Some?
      ensures r.Ok? ==>
                var c := chats[IndexOfId(chats, chatId).value];
                IsParticipant(c, callerId) && r.value == c.messages
      ensures IndexOfId(chats, chatId).Some? ==>
                var c := chats[IndexOfId(chats, chatId).value];
                && (r == Forbidden <==> !IsParticipant(c, callerId) && FindUser(users, c.doctor).Some? && FindUser(users, c.patient).Some?)
                && (r == ServerError <==> FindUser(users, c.doctor).None? || (c.doctor != callerId && FindUser(users, c.patient).None?))
                && (r.Ok? <==> FindUser(users, c.doctor).Some? &&
                                (c.doctor == callerId || (FindUser(users, c.patient).Some? && c.patient == callerId)))
    {
      match IndexOfId(chats, chatId)
      case None => NotFound
      case Some(i) =>
        var c := chats[i];
        if FindUser(users, c.doctor).None? then ServerError
        else if c.doctor == callerId then Ok(c.messages)
        else if FindUser(users, c.patient).None? then ServerError
        else if c.patient == callerId then Ok(c.messages)
        else Forbidden
    }
  }
}
