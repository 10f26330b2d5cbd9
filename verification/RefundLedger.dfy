/**
 What the database keeps true of refund operations, tax documents and refund tax links: the two
 protection triggers, the unique keys and the foreign keys, over any sequence of row changes.
 */
module RefundLedger {
  import opened Wrappers

  type Id = nat

  /**
   A tax document: its number, the refund operation it is the credit note of, the document it amends, the
   rows of other tables it belongs to (company, branch, users), the rest.
   */
  datatype Document = Document(
    number: string, source: Option<Id>, original: Option<Id>, owners: set<Id>, content: string)

  datatype Link = Link(operation: Id, original: Option<Id>, creditNote: Option<Id>, key: string, status: string)

  /** The last three are the rows of other tables: which of ours they refer to, and which owners there are. */
  datatype Tables = Tables(
    operations: set<Id>, documents: map<Id, Document>, links: map<Id, Link>,
    usedOperations: set<Id>, usedDocuments: set<Id>, owners: set<Id>)

  /** One row change; an update may also give the row another primary key. */
  datatype Change =
    | InsertOperation(id: Id)
    | DeleteOperation(id: Id)
    | InsertDocument(id: Id, document: Document)
    | UpdateDocument(id: Id, newId: Id, document: Document)
    | DeleteDocument(id: Id)
    | InsertLink(id: Id, link: Link)
    | UpdateLink(id: Id, newId: Id, link: Link)
    | DeleteLink(id: Id)
    | ChangeOthers(usedOperations: set<Id>, usedDocuments: set<Id>, owners: set<Id>)

  const LINK_STATUSES := {"pending", "not_required", "issued", "failed"}

  // ----- Constraints -----

  predicate Refers<K, V>(reference: Option<K>, table: map<K, V>) {
    reference.Some? ==> reference.value in table
  }

  predicate Clash(a: Option<Id>, b: Option<Id>) {
    a.Some? && a == b
  }

  predicate DocumentsClash(a: Document, b: Document) {
    Clash(a.source, b.source) || a.number == b.number
  }

  predicate LinksClash(a: Link, b: Link) {
    a.operation == b.operation || Clash(a.creditNote, b.creditNote) || a.key == b.key
  }

  ghost predicate OriginalsExist(documents: map<Id, Document>) {
    forall d | d in documents :: Refers(documents[d].original, documents)
  }

  ghost predicate SourcesSound(operations: set<Id>, documents: map<Id, Document>) {
    && (forall d | d in documents :: documents[d].source.Some? ==> documents[d].source.value in operations)
    && (forall d, e | d in documents && e in documents && d != e :: !DocumentsClash(documents[d], documents[e]))
  }

  predicate OwnersExist(owners: set<Id>, documents: map<Id, Document>) {
    forall d | d in documents :: documents[d].owners <= owners
  }

  ghost predicate LinksConsistent(t: Tables) {
    && (forall l | l in t.links :: t.links[l].operation in t.operations && t.links[l].status in LINK_STATUSES)
    && (forall l | l in t.links ::
          Refers(t.links[l].original, t.documents) && Refers(t.links[l].creditNote, t.documents))
    && (forall l, m | l in t.links && m in t.links && l != m :: !LinksClash(t.links[l], t.links[m]))
  }

  /** Every foreign key, unique key and check holds. */
  ghost predicate Consistent(t: Tables) {
    && SourcesSound(t.operations, t.documents) && OriginalsExist(t.documents) && LinksConsistent(t)
    && OwnersExist(t.owners, t.documents)
    && t.usedOperations <= t.operations && t.usedDocuments <= t.documents.Keys
  }

  // ----- Triggers -----

  /** `protect_refund_tax_link_identity`, on update */
  predicate LinkIdentityChanges(before: Link, after: Link) {
    || after.operation != before.operation
    || after.original != before.original
    || (before.creditNote.Some? && after.creditNote != before.creditNote)
    || after.key != before.key
  }

  predicate TriggerRejects(t: Tables, c: Change) {
    match c
    case UpdateDocument(id, _, _) => id in t.documents && t.documents[id].source.Some?
    case DeleteDocument(id) => id in t.documents && t.documents[id].source.Some?
    case UpdateLink(id, _, link) => id in t.links && LinkIdentityChanges(t.links[id], link)
    case DeleteLink(id) => id in t.links
    case _ => false
  }

  // ----- One change -----

  /** The tables after the change alone; nothing on a primary-key conflict. A missing row changes nothing. */
  function Raw(t: Tables, c: Change): Option<Tables> {
    match c
    case InsertOperation(id) =>
      if id in t.operations then None else Some(t.(operations := t.operations + {id}))
    case DeleteOperation(id) => Some(t.(operations := t.operations - {id}))
    case InsertDocument(id, document) =>
      if id in t.documents then None else Some(t.(documents := t.documents[id := document]))
    case UpdateDocument(id, newId, document) =>
      if id !in t.documents then Some(t)
      else if newId != id && newId in t.documents then None
      else Some(t.(documents := (t.documents - {id})[newId := document]))
    case DeleteDocument(id) => Some(t.(documents := t.documents - {id}))
    case InsertLink(id, link) =>
      if id in t.links then None else Some(t.(links := t.links[id := link]))
    case UpdateLink(id, newId, link) =>
      if id !in t.links then Some(t)
      else if newId != id && newId in t.links then None
      else Some(t.(links := (t.links - {id})[newId := link]))
    case DeleteLink(id) => Some(t.(links := t.links - {id}))
    case ChangeOthers(usedOperations, usedDocuments, owners) =>
      Some(t.(usedOperations := usedOperations, usedDocuments := usedDocuments, owners := owners))
  }

  /** A change is accepted when no trigger objects and every constraint holds afterwards. */
  ghost predicate Accepts(t: Tables, c: Change) {
    !TriggerRejects(t, c) && Raw(t, c).Some? && Consistent(Raw(t, c).value)
  }

  ghost function Step(t: Tables, c: Change): Tables {
    if Accepts(t, c) then Raw(t, c).value else t
  }

  ghost function Run(t: Tables, changes: seq<Change>): Tables
    decreases |changes|
  {
    if changes == [] then t else Run(Step(t, changes[0]), changes[1..])
  }

  lemma {:induction false} RunConsistent(t: Tables, changes: seq<Change>)
    requires Consistent(t)
    ensures Consistent(Run(t, changes))
    decreases |changes|
  {
    if changes != [] { RunConsistent(Step(t, changes[0]), changes[1..]); }
  }

  /** After any run: numbers and sources of documents are unique, and so are operations, notes and keys of links. */
  lemma KeysStayUnique(t: Tables, changes: seq<Change>, a: Id, b: Id)
    requires Consistent(t) && a != b
    ensures var documents := Run(t, changes).documents;
            a in documents && b in documents ==>
              && documents[a].number != documents[b].number
              && (documents[a].source.Some? ==> documents[a].source != documents[b].source)
    ensures var links := Run(t, changes).links;
            a in links && b in links ==>
              && links[a].operation != links[b].operation && links[a].key != links[b].key
              && (links[a].creditNote.Some? ==> links[a].creditNote != links[b].creditNote)
  {
    RunConsistent(t, changes);
  }

  /** After any run: what documents and links refer to exists, and so does what other tables refer to. */
  lemma ReferencesStaySound(t: Tables, changes: seq<Change>)
    requires Consistent(t)
    ensures var after := Run(t, changes);
            && (forall d | d in after.documents ::
                  && (after.documents[d].source.Some? ==> after.documents[d].source.value in after.operations)
                  && (after.documents[d].original.Some? ==> after.documents[d].original.value in after.documents)
                  && after.documents[d].owners <= after.owners)
            && (forall l | l in after.links ::
                  && after.links[l].operation in after.operations
                  && (after.links[l].original.Some? ==> after.links[l].original.value in after.documents)
                  && (after.links[l].creditNote.Some? ==> after.links[l].creditNote.value in after.documents)
                  && after.links[l].status in {"pending", "not_required", "issued", "failed"})
            && after.usedOperations <= after.operations && after.usedDocuments <= after.documents.Keys
  {
    RunConsistent(t, changes);
  }

  // ----- Tax links over whole runs -----

  /** The same link, later: only an absent credit note may have been filled in. */
  predicate Continues(before: Link, after: Link) {
    && after.operation == before.operation && after.original == before.original && after.key == before.key
    && (before.creditNote.Some? ==> after.creditNote == before.creditNote)
  }

  lemma LinkStep(t: Tables, c: Change, id: Id) returns (later: Id)
    requires id in t.links
    ensures later in Step(t, c).links && Continues(t.links[id], Step(t, c).links[later])
  {
    later := if c.UpdateLink? && c.id == id && Accepts(t, c) then c.newId else id;
  }

  /**
   Whatever is tried, a link survives with its operation, its original document and its key, keeps a
   credit note once it has one, and what it refers to still exists.
   */
  lemma {:induction false} LinkPersists(t: Tables, changes: seq<Change>, id: Id) returns (later: Id)
    requires Consistent(t) && id in t.links
    ensures var after := Run(t, changes);
            && later in after.links && Continues(t.links[id], after.links[later])
            && after.links[later].operation in after.operations
            && Refers(after.links[later].original, after.documents)
            && Refers(after.links[later].creditNote, after.documents)
            && (forall l | l in after.links && l != later ::
                  && after.links[l].operation != t.links[id].operation && after.links[l].key != t.links[id].key
                  && (after.links[later].creditNote.Some? ==>
                        after.links[l].creditNote != after.links[later].creditNote))
    decreases |changes|
  {
    if changes == [] {
      later := id;
    } else {
      var next := LinkStep(t, changes[0], id);
      later := LinkPersists(Step(t, changes[0]), changes[1..], next);
    }
    RunConsistent(t, changes);
  }

  // ----- Credit notes over whole runs -----

  lemma CreditNoteStays(t: Tables, c: Change, d: Id)
    requires d in t.documents && t.documents[d].source.Some?
    ensures d in Step(t, c).documents && Step(t, c).documents[d] == t.documents[d]
  {
    hide Consistent;
  }

  lemma {:induction false} CreditNoteFrozen(t: Tables, changes: seq<Change>, d: Id)
    requires d in t.documents && t.documents[d].source.Some?
    ensures d in Run(t, changes).documents && Run(t, changes).documents[d] == t.documents[d]
    decreases |changes|
  {
    hide Step;
    if changes != [] {
      CreditNoteStays(t, changes[0], d);
      CreditNoteFrozen(Step(t, changes[0]), changes[1..], d);
    }
  }

  /** An operation is the source of at most one document, and stays so with that document as it is. */
  lemma OneCreditNotePerOperation(t: Tables, changes: seq<Change>, d: Id, e: Id)
    requires Consistent(t) && d in t.documents && t.documents[d].source.Some?
    requires e in Run(t, changes).documents && Run(t, changes).documents[e].source == t.documents[d].source
    ensures e == d && Run(t, changes).documents[e] == t.documents[d]
  {
    CreditNoteFrozen(t, changes, d);
    RunConsistent(t, changes);
  }

  /** A link whose credit note names its operation: both are final, and each is the only one of its operation. */
  lemma IssuedIsFinal(t: Tables, changes: seq<Change>, id: Id) returns (later: Id)
    requires Consistent(t) && id in t.links && t.links[id].creditNote.Some?
    requires t.documents[t.links[id].creditNote.value].source == Some(t.links[id].operation)
    ensures var after, note := Run(t, changes), t.links[id].creditNote.value;
            && later in after.links && after.links[later].creditNote == Some(note)
            && (forall l | l in after.links && after.links[l].operation == t.links[id].operation :: l == later)
            && note in after.documents && after.documents[note] == t.documents[note]
            && (forall e | e in after.documents && after.documents[e].source == Some(t.links[id].operation) ::
                  e == note)
  {
    later := LinkPersists(t, changes, id);
    CreditNoteFrozen(t, changes, t.links[id].creditNote.value);
    RunConsistent(t, changes);
  }

  /** Without that, the credit note of a link can still be edited: the keys alone do not freeze it. */
  lemma UnnamedCreditNoteCanChange()
    ensures exists t: Tables, c, id :: && Consistent(t) && id in t.links && t.links[id].creditNote == Some(7)
                               && 7 in Step(t, c).documents && Step(t, c).documents[7] != t.documents[7]
  {
    var link := Link(1, None, Some(7), "k", "issued");
    var t := Tables({1}, map[7 := Document("n", None, None, {}, "")], map[3 := link], {}, {}, {});
    var c := UpdateDocument(7, 7, Document("n", None, None, {}, "edited"));
    assert Consistent(t);
    assert Raw(t, c).value.documents == map[7 := Document("n", None, None, {}, "edited")];
    assert Consistent(Raw(t, c).value);
    assert Step(t, c).documents[7] != t.documents[7] && t.links[3].creditNote == Some(7);
  }

  // ----- The checks a database makes, row by row -----

  /** The other rows being consistent, the tables with this link are consistent exactly when it passes. */
  predicate LinkPasses(t: Tables, link: Link) {
    && link.operation in t.operations && link.status in LINK_STATUSES
    && (link.original.Some? ==> link.original.value in t.documents)
    && (link.creditNote.Some? ==> link.creditNote.value in t.documents)
    && (forall m | m in t.links :: t.links[m].operation != link.operation && t.links[m].key != link.key)
    && (forall m | m in t.links && link.creditNote.Some? :: t.links[m].creditNote != link.creditNote)
  }

  lemma PutLink(t: Tables, id: Id, link: Link)
    requires Consistent(t) && id !in t.links
    ensures Consistent(t.(links := t.links[id := link])) <==> LinkPasses(t, link)
  {
    hide SourcesSound, OriginalsExist, LinksClash, LinkPasses;
    LinksClashBothWays();
    LinkPassesByClash(t, link);
    var after := t.(links := t.links[id := link]);
    assert after.links[id] == link;
    assert forall m | m in t.links :: m != id && after.links[m] == t.links[m];
  }

  lemma LinksClashBothWays()
    ensures forall a: Link, b: Link :: LinksClash(a, b) <==> LinksClash(b, a)
  {
  }

  lemma LinkPassesByClash(t: Tables, link: Link)
    ensures LinkPasses(t, link) <==>
            && link.operation in t.operations && link.status in LINK_STATUSES
            && Refers(link.original, t.documents) && Refers(link.creditNote, t.documents)
            && (forall m | m in t.links :: !LinksClash(link, t.links[m]))
  {
  }

  /** `id` is the key the document gets; it may amend itself. */
  predicate DocumentPasses(t: Tables, id: Id, document: Document) {
    && (document.source.Some? ==> document.source.value in t.operations)
    && (document.original.Some? && document.original.value != id ==> document.original.value in t.documents)
    && document.owners <= t.owners
    && (forall e | e in t.documents :: t.documents[e].number != document.number)
    && (forall e | e in t.documents && document.source.Some? :: t.documents[e].source != document.source)
  }

  lemma PutOriginal(documents: map<Id, Document>, id: Id, document: Document)
    requires OriginalsExist(documents) && id !in documents
    ensures OriginalsExist(documents[id := document]) <==>
            (document.original.Some? && document.original.value != id ==> document.original.value in documents)
  {
    var after := documents[id := document];
    assert after[id] == document;
    assert forall e | e in documents :: after[e] == documents[e];
  }

  lemma PutSource(operations: set<Id>, documents: map<Id, Document>, id: Id, document: Document)
    requires SourcesSound(operations, documents) && id !in documents
    ensures SourcesSound(operations, documents[id := document]) <==>
            && (document.source.Some? ==> document.source.value in operations)
            && (forall e | e in documents :: documents[e].number != document.number)
            && (forall e | e in documents && document.source.Some? :: documents[e].source != document.source)
  {
    var after := documents[id := document];
    assert after[id] == document;
    assert forall e | e in documents :: after[e] == documents[e] && e != id;
  }

  lemma PutOwners(owners: set<Id>, documents: map<Id, Document>, id: Id, document: Document)
    requires OwnersExist(owners, documents)
    ensures OwnersExist(owners, documents[id := document]) <==> document.owners <= owners
  {
    assert documents[id := document][id] == document;
  }

  lemma PutUnderLinks(t: Tables, id: Id, document: Document)
    requires LinksConsistent(t)
    ensures LinksConsistent(t.(documents := t.documents[id := document]))
  {
  }

  lemma PutDocument(t: Tables, id: Id, document: Document)
    requires Consistent(t) && id !in t.documents
    ensures Consistent(t.(documents := t.documents[id := document])) <==> DocumentPasses(t, id, document)
  {
    hide SourcesSound, OriginalsExist, LinksConsistent, OwnersExist;
    PutOwners(t.owners, t.documents, id, document);
    PutUnderLinks(t, id, document);
    PutOriginal(t.documents, id, document);
    PutSource(t.operations, t.documents, id, document);
  }

  predicate ReferencedByDocument(documents: map<Id, Document>, d: Id) {
    exists e | e in documents :: documents[e].original == Some(d)
  }

  predicate ReferencedByLink(links: map<Id, Link>, d: Id) {
    exists l | l in links :: links[l].original == Some(d) || links[l].creditNote == Some(d)
  }

  /** The document under `id` replaced by `document` under `newId`. */
  predicate ReplacementPasses(t: Tables, id: Id, newId: Id, document: Document)
    requires id in t.documents
  {
    var others := t.documents - {id};
    && (newId == id || (id !in t.usedDocuments && !ReferencedByLink(t.links, id)))
    && (newId == id || !ReferencedByDocument(others, id))
    && (document.source.Some? ==> document.source.value in t.operations)
    && (document.original.Some? && document.original.value != newId ==> document.original.value in others)
    && document.owners <= t.owners
    && (forall e | e in others :: others[e].number != document.number)
    && (forall e | e in others && document.source.Some? :: others[e].source != document.source)
  }

  lemma ReplaceUnderLinks(t: Tables, id: Id, newId: Id, document: Document)
    requires LinksConsistent(t) && id in t.documents && (newId == id || newId !in t.documents)
    ensures LinksConsistent(t.(documents := (t.documents - {id})[newId := document])) <==>
            newId == id || !ReferencedByLink(t.links, id)
  {
    var after := (t.documents - {id})[newId := document];
    assert forall e :: e in after <==> e == newId || (e in t.documents && e != id);
    if newId != id && ReferencedByLink(t.links, id) {
      var l :| l in t.links && (t.links[l].original == Some(id) || t.links[l].creditNote == Some(id));
      assert !Refers(t.links[l].original, after) || !Refers(t.links[l].creditNote, after);
    }
  }

  lemma ReplaceOriginal(documents: map<Id, Document>, id: Id, newId: Id, document: Document)
    requires OriginalsExist(documents)
    requires id in documents && (newId == id || newId !in documents)
    ensures var others := documents - {id};
            OriginalsExist(others[newId := document]) <==>
            && (newId == id || !ReferencedByDocument(others, id))
            && (document.original.Some? && document.original.value != newId ==> document.original.value in others)
  {
    var others := documents - {id};
    var after := others[newId := document];
    assert after[newId] == document;
    assert forall e | e in others :: e in after && after[e] == others[e];
    if newId != id && ReferencedByDocument(others, id) {
      var e :| e in others && others[e].original == Some(id);
      assert !Refers(after[e].original, after);
    }
  }

  lemma ReplaceSource(operations: set<Id>, documents: map<Id, Document>, id: Id, newId: Id, document: Document)
    requires SourcesSound(operations, documents)
    requires id in documents && (newId == id || newId !in documents)
    ensures var others := documents - {id};
            SourcesSound(operations, others[newId := document]) <==>
            && (document.source.Some? ==> document.source.value in operations)
            && (forall e | e in others :: others[e].number != document.number)
            && (forall e | e in others && document.source.Some? :: others[e].source != document.source)
  {
    var others := documents - {id};
    var after := others[newId := document];
    assert after[newId] == document && newId !in others;
    assert forall e | e in others :: e in after && after[e] == others[e];
  }

  lemma OwnersOfOthers(owners: set<Id>, documents: map<Id, Document>, id: Id)
    requires OwnersExist(owners, documents)
    ensures OwnersExist(owners, documents - {id})
  {
  }

  lemma ReplaceDocument(t: Tables, id: Id, newId: Id, document: Document)
    requires Consistent(t) && id in t.documents && (newId == id || newId !in t.documents)
    ensures Consistent(t.(documents := (t.documents - {id})[newId := document])) <==>
            ReplacementPasses(t, id, newId, document)
  {
    hide SourcesSound, OriginalsExist, LinksConsistent, OwnersExist;
    OwnersOfOthers(t.owners, t.documents, id);
    PutOwners(t.owners, t.documents - {id}, newId, document);
    ReplaceUnderLinks(t, id, newId, document);
    ReplaceOriginal(t.documents, id, newId, document);
    ReplaceSource(t.operations, t.documents, id, newId, document);
  }

  lemma RemoveDocument(t: Tables, id: Id)
    requires Consistent(t) && id in t.documents
    ensures Consistent(t.(documents := t.documents - {id})) <==>
            id !in t.usedDocuments && !ReferencedByLink(t.links, id) && !ReferencedByDocument(t.documents - {id}, id)
  {
    var others := t.documents - {id};
    assert forall e | e in t.documents && e != id :: e in others && others[e] == t.documents[e];
    if ReferencedByDocument(others, id) {
      var e :| e in others && others[e].original == Some(id);
      assert !Refers(others[e].original, others);
    }
    if ReferencedByLink(t.links, id) {
      var l :| l in t.links && (t.links[l].original == Some(id) || t.links[l].creditNote == Some(id));
      assert !Refers(t.links[l].original, others) || !Refers(t.links[l].creditNote, others);
    }
  }

  lemma RemoveOperation(t: Tables, id: Id)
    requires Consistent(t)
    ensures Consistent(t.(operations := t.operations - {id})) <==> (
              && id !in t.usedOperations
              && (forall d | d in t.documents :: t.documents[d].source != Some(id))
              && (forall l | l in t.links :: t.links[l].operation != id))
  {
  }

  // ----- Which changes are accepted -----

  /** An update of a link is accepted exactly when it only fills in an absent credit note, or changes the status. */
  lemma LinkUpdateExactly(t: Tables, id: Id, newId: Id, link: Link)
    requires Consistent(t) && id in t.links
    ensures Accepts(t, UpdateLink(id, newId, link)) <==>
            && link == t.links[id].(creditNote := link.creditNote, status := link.status)
            && (t.links[id].creditNote.Some? ==> link.creditNote == t.links[id].creditNote)
            && (newId == id || newId !in t.links)
            && LinkPasses(t.(links := t.links - {id}), link)
  {
    hide Consistent, LinkPasses;
    WithoutLink(t, id);
    if newId == id || newId !in t.links {
      PutLink(t.(links := t.links - {id}), newId, link);
    }
  }

  lemma WithoutLink(t: Tables, id: Id)
    requires Consistent(t)
    ensures Consistent(t.(links := t.links - {id}))
  {
    hide SourcesSound, OriginalsExist, LinksClash;
  }

  /** A document is updated or deleted exactly while it names no refund operation, and only if the keys allow it. */
  lemma DocumentChangesExactly(t: Tables, id: Id, newId: Id, document: Document)
    requires Consistent(t) && id in t.documents
    ensures Accepts(t, UpdateDocument(id, newId, document)) <==>
            && t.documents[id].source.None? && (newId == id || newId !in t.documents)
            && ReplacementPasses(t, id, newId, document)
    ensures Accepts(t, DeleteDocument(id)) <==>
            && t.documents[id].source.None? && id !in t.usedDocuments
            && !ReferencedByLink(t.links, id) && !ReferencedByDocument(t.documents - {id}, id)
  {
    hide Consistent, ReplacementPasses, ReferencedByLink, ReferencedByDocument;
    if newId == id || newId !in t.documents { ReplaceDocument(t, id, newId, document); }
    RemoveDocument(t, id);
  }

  /** Inserts and deletions of the other kinds: accepted exactly where the keys allow it; a link is never deleted. */
  lemma InsertsExactly(t: Tables, id: Id, document: Document, link: Link)
    requires Consistent(t)
    ensures Accepts(t, InsertDocument(id, document)) <==> id !in t.documents && DocumentPasses(t, id, document)
    ensures Accepts(t, InsertLink(id, link)) <==> id !in t.links && LinkPasses(t, link)
    ensures Accepts(t, DeleteLink(id)) <==> id !in t.links
    ensures Accepts(t, DeleteOperation(id)) <==> (
              && id !in t.usedOperations
              && (forall d | d in t.documents :: t.documents[d].source != Some(id))
              && (forall l | l in t.links :: t.links[l].operation != id))
  {
    hide Consistent, LinkPasses, DocumentPasses;
    if id !in t.documents { PutDocument(t, id, document); }
    if id !in t.links {
      PutLink(t, id, link);
      assert t.links - {id} == t.links;
    }
    RemoveOperation(t, id);
  }

  // ----- What can still change -----

  lemma EditPasses(t: Tables, d: Id, content: string)
    requires Consistent(t) && d in t.documents
    ensures ReplacementPasses(t, d, d, t.documents[d].(content := content))
  {
    hide LinksConsistent;
  }

  lemma EditChanges(t: Tables, d: Id)
    requires Consistent(t) && d in t.documents && t.documents[d].source.None?
    ensures exists c :: d !in Step(t, c).documents || Step(t, c).documents[d] != t.documents[d]
  {
    hide Consistent, ReplacementPasses;
    var edited := t.documents[d].(content := t.documents[d].content + "!");
    EditPasses(t, d, edited.content);
    ReplaceDocument(t, d, d, edited);
    var c := UpdateDocument(d, d, edited);
    assert Accepts(t, c);
    assert Step(t, c).documents[d] == edited != t.documents[d];
  }

  /** A document can still be changed exactly as long as it names no refund operation. */
  lemma ChangeableIffNoSource(t: Tables, d: Id)
    requires Consistent(t) && d in t.documents
    ensures (exists c :: d !in Step(t, c).documents || Step(t, c).documents[d] != t.documents[d]) <==>
            t.documents[d].source.None?
  {
    hide Consistent;
    if t.documents[d].source.None? {
      EditChanges(t, d);
    } else {
      forall c ensures d in Step(t, c).documents && Step(t, c).documents[d] == t.documents[d] {
        CreditNoteStays(t, c, d);
      }
    }
  }

  /** The tables, changed row by row with the checks a row needs. */
  class Ledger {
    var operations: set<Id>
    var documents: map<Id, Document>
    var links: map<Id, Link>
    var usedOperations: set<Id>
    var usedDocuments: set<Id>
    var owners: set<Id>

    function State(): Tables
      reads this
    {
      Tables(operations, documents, links, usedOperations, usedDocuments, owners)
    }

    ghost predicate Valid()
      reads this
    {
      Consistent(State())
    }

    constructor ()
      ensures Valid() && State() == Tables({}, map[], map[], {}, {}, {})
    {
      operations, documents, links, usedOperations, usedDocuments, owners := {}, map[], map[], {}, {}, {};
    }

    method AddOperation(id: Id) returns (accepted: bool)
      requires Valid()
      modifies this`operations
      ensures Valid() && State() == old(Step(State(), InsertOperation(id)))
      ensures accepted == old(Accepts(State(), InsertOperation(id)))
    {
      accepted := id !in operations;
      if accepted { operations := operations + {id}; }
    }

    method RemoveOperationRow(id: Id) returns (accepted: bool)
      requires Valid()
      modifies this`operations
      ensures Valid() && State() == old(Step(State(), DeleteOperation(id)))
      ensures accepted == old(Accepts(State(), DeleteOperation(id)))
    {
      RemoveOperation(State(), id);
      accepted := id !in usedOperations
                  && (forall d | d in documents :: documents[d].source != Some(id))
                  && (forall l | l in links :: links[l].operation != id);
      if accepted { operations := operations - {id}; }
    }

    method AddDocument(id: Id, document: Document) returns (accepted: bool)
      requires Valid()
      modifies this`documents
      ensures Valid() && State() == old(Step(State(), InsertDocument(id, document)))
      ensures accepted == old(Accepts(State(), InsertDocument(id, document)))
    {
      accepted := id !in documents && DocumentPasses(State(), id, document);
      if id !in documents { PutDocument(State(), id, document); }
      if accepted { documents := documents[id := document]; }
    }

    method ChangeDocument(id: Id, newId: Id, document: Document) returns (accepted: bool)
      requires Valid()
      modifies this`documents
      ensures Valid() && State() == old(Step(State(), UpdateDocument(id, newId, document)))
      ensures accepted == old(Accepts(State(), UpdateDocument(id, newId, document)))
    {
      if id !in documents { return true; }
      if documents[id].source.Some? || (newId != id && newId in documents) { return false; }
      ReplaceDocument(State(), id, newId, document);
      accepted := ReplacementPasses(State(), id, newId, document);
      if accepted { documents := (documents - {id})[newId := document]; }
    }

    method RemoveDocumentRow(id: Id) returns (accepted: bool)
      requires Valid()
      modifies this`documents
      ensures Valid() && State() == old(Step(State(), DeleteDocument(id)))
      ensures accepted == old(Accepts(State(), DeleteDocument(id)))
    {
      if id !in documents {
        assert documents - {id} == documents;
        return true;
      }
      if documents[id].source.Some? { return false; }
      RemoveDocument(State(), id);
      accepted := id !in usedDocuments && !ReferencedByLink(links, id) && !ReferencedByDocument(documents - {id}, id);
      if accepted { documents := documents - {id}; }
    }

    method AddLink(id: Id, link: Link) returns (accepted: bool)
      requires Valid()
      modifies this`links
      ensures Valid() && State() == old(Step(State(), InsertLink(id, link)))
      ensures accepted == old(Accepts(State(), InsertLink(id, link)))
    {
      accepted := id !in links && LinkPasses(State(), link);
      if id !in links { PutLink(State(), id, link); }
      if accepted { links := links[id := link]; }
    }

    method ChangeLink(id: Id, newId: Id, link: Link) returns (accepted: bool)
      requires Valid()
      modifies this`links
      ensures Valid() && State() == old(Step(State(), UpdateLink(id, newId, link)))
      ensures accepted == old(Accepts(State(), UpdateLink(id, newId, link)))
    {
      if id !in links { return true; }
      if LinkIdentityChanges(links[id], link) || (newId != id && newId in links) { return false; }
      var others := State().(links := links - {id});
      PutLink(others, newId, link);
      accepted := LinkPasses(others, link);
      if accepted { links := others.links[newId := link]; }
    }

    method RemoveLink(id: Id) returns (accepted: bool)
      requires Valid()
      ensures State() == old(Step(State(), DeleteLink(id)))
      ensures accepted == old(Accepts(State(), DeleteLink(id)))
    {
      accepted := id !in links;
      assert accepted ==> links - {id} == links;
    }

    /** Rows of other tables come and go. */
    method ChangeOtherRows(newOperations: set<Id>, newDocuments: set<Id>, newOwners: set<Id>) returns (accepted: bool)
      requires Valid()
      modifies this`usedOperations, this`usedDocuments, this`owners
      ensures Valid() && State() == old(Step(State(), ChangeOthers(newOperations, newDocuments, newOwners)))
      ensures accepted == old(Accepts(State(), ChangeOthers(newOperations, newDocuments, newOwners)))
    {
      accepted := newOperations <= operations && newDocuments <= documents.Keys
                  && forall d | d in documents :: documents[d].owners <= newOwners;
      if accepted { usedOperations, usedDocuments, owners := newOperations, newDocuments, newOwners; }
    }
  }
}
