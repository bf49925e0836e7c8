/** The items service: the signed-in user's items in the `items` table,
    each with an optional image in the storage bucket. Every call first
    makes sure of the session, then of the table; failures propagate.
    Creating uploads the image before the insert and removes it again when
    the insert fails; updating replaces the old image; deleting removes
    the row before the image. */
module Items {
  import opened Wrappers
  import opened Js
  import opened Schema
  import opened TableManager
  import opened Db
  import opened Session
  import opened Records
  import opened Services
  import opened Strings
  import opened Storage

  const ItemsTable := "items"
  const NotFound := "Item not found or access denied"

  /** The requests a call issues, in order. */
  datatype Step =
    | SessionCheck        // ensureSession
    | TableCheck          // ensureTableExists
    | SelectRequest       // the user's items
    | LookupRequest       // the owned item by id
    | InsertRequest
    | UpdateRequest
    | DeleteRequest
    | UploadFile(path: string)
    | RemoveFile(path: string)

  /** `CreateItemData` and `UpdateItemData` (whose `id` is separate here):
      the title, the description if given, and the file name of the image
      if one is given. */
  datatype ItemData = ItemData(title: string, description: Option<string>, image: Option<string>)

  /** The storage side as the service sees it: the bucket name, the
      project's origin in public URLs, and what `new URL(u).pathname`
      reads from a URL (`None` when the parser throws). */
  datatype Site = Site(bucket: string, origin: string, pathnameOf: string -> Option<string>)

  /** The backend's answers: the owned-item lookup, the write (insert,
      update or delete), the upload and the remove request. */
  datatype Replies = Replies(lookup: Fault, write: Fault, upload: Fault, remove: Fault)

  /** What a call leaves behind: the table cache, the rows, the stored
      files, the outcome and the requests issued. */
  datatype Done<T> = Done(cache: set<string>, rows: seq<Row>, files: set<string>, outcome: Outcome<T>, steps: seq<Step>)

  function Prefixed<T>(steps: seq<Step>, d: Done<T>): Done<T> {
    d.(steps := steps + d.steps)
  }

  // ---------------------------------------------------------------------
  // The rows written and the images removed
  // ---------------------------------------------------------------------

  /** `itemData.description || null` */
  function DescriptionValue(d: Option<string>): (v: Value)
    ensures v == Null <==> d.None? || d.value == ""
    ensures v != Null ==> v == Str(d.value)
  {
    Or(if d.Some? then Str(d.value) else Undefined, Null)
  }

  /** The object `createItem` inserts. */
  function InsertRow(userId: string, data: ItemData, imageUrl: Value): Row {
    map["user_id" := Str(userId), "title" := Str(data.title), "description" := DescriptionValue(data.description),
        "image_url" := imageUrl]
  }

  /** The object `updateItem` writes. */
  function ItemPatch(data: ItemData, imageUrl: Value): Row {
    map["title" := Str(data.title), "description" := DescriptionValue(data.description), "image_url" := imageUrl]
  }

  /** The user's items, newest first. */
  function UserPlan(userId: string): Plan {
    Plan("*", UserFilter(userId), Some(Order("created_at", false)), None)
  }

  /** `deleteImage(url)` for a stored `image_url`; a value that is not a
      string does not parse as a URL. */
  function DropImage(files: set<string>, site: Site, url: Value, reply: Fault): (set<string>, Option<string>) {
    if url.Str? then DeleteEffect(files, site.bucket, site.pathnameOf(url.s), reply) else (files, None)
  }

  /** `if (url) await deleteImage(url)` */
  function DropIfAny(files: set<string>, site: Site, url: Value, reply: Fault): (set<string>, Option<string>) {
    if url.Truthy() then DropImage(files, site, url, reply) else (files, None)
  }

  /** The remove request `deleteImage` issued, if any. */
  function RemoveSteps(target: Option<string>): seq<Step> {
    if target.Some? then [RemoveFile(target.value)] else []
  }

  // ---------------------------------------------------------------------
  // The calls as functions of the state
  // ---------------------------------------------------------------------

  /** How the two checks every call but `createItem` begins with end: the
      signed-in user's id, or what was thrown and the requests made. */
  datatype Gate = Pass(cache: set<string>, userId: string) | Stop(cache: set<string>, thrown: Thrown, steps: seq<Step>)

  /** `ensureSession` and then `ensureTableExists`. */
  function Gated(cache: set<string>, a: AuthReplies, w: World): (g: Gate)
  {
    var s := EnsureSession(a).0;
    if s.Threw? then Stop(cache, s.thrown, [SessionCheck])
    else
      var e := Ensure(cache, ItemsTable, ItemsSchema, w);
      if e.outcome.Threw? then Stop(e.cache, e.outcome.thrown, [SessionCheck, TableCheck])
      else Pass(e.cache, s.value.id)
  }

  /** The owned-item lookup: the row, or none when the request fails or
      does not find exactly one row. */
  function Owned(rows: seq<Row>, id: string, userId: string, lookup: Fault): (r: Option<Row>)
    ensures r.Some? <==> lookup.Ok? && |Where(rows, OwnFilter(id, userId))| == 1
    ensures r.Some? ==> Where(rows, OwnFilter(id, userId)) == [r.value] && r.value in rows
    ensures r.Some? ==> Field(r.value, "id") == Str(id) && Field(r.value, "user_id") == Str(userId)
  {
    var found := Where(rows, OwnFilter(id, userId));
    if lookup.Fail? || |found| != 1 then None
    else
      assert found[0] in found;
      MatchesOwn(found[0], id, userId);
      SingleOf(found).data
  }

  /** `getItems()` after the checks; `fault` is the backend's answer to
      the select. */
  function GetItemsFrom(g: Gate, rows: seq<Row>, files: set<string>, fault: Fault): Done<seq<Row>> {
    if g.Stop? then Done(g.cache, rows, files, Threw(g.thrown), g.steps)
    else if fault.Fail? then Done(g.cache, rows, files, Threw(Rejected(fault.error)), [SessionCheck, TableCheck, SelectRequest])
    else Done(g.cache, rows, files, Returned(Run(rows, UserPlan(g.userId))), [SessionCheck, TableCheck, SelectRequest])
  }

  function GetItemsCall(cache: set<string>, rows: seq<Row>, files: set<string>, a: AuthReplies, w: World, fault: Fault): Done<seq<Row>> {
    GetItemsFrom(Gated(cache, a, w), rows, files, fault)
  }

  /** `createItem` from the table check on, whose effect is `e`, with
      `imageUrl` the uploaded image's URL or `null`. */
  function StoreStage(e: Effect, rows: seq<Row>, files: set<string>, userId: string, data: ItemData, imageUrl: Value,
                      site: Site, rp: Replies, generated: Row): Done<Row> {
    if e.outcome.Threw? then Done(e.cache, rows, files, Threw(e.outcome.thrown), [TableCheck])
    else if rp.write.Fail? then
      var d := DropIfAny(files, site, imageUrl, rp.remove);
      Done(e.cache, rows, d.0, Threw(Rejected(rp.write.error)), [TableCheck, InsertRequest] + RemoveSteps(d.1))
    else
      var stored := WithGenerated([InsertRow(userId, data, imageUrl)], [generated]);
      Done(e.cache, rows + stored, files, Returned(stored[0]), [TableCheck, InsertRequest])
  }

  /** `createItem` once the user is known: the upload, if there is an
      image, then the rest. */
  function UploadStage(cache: set<string>, e: Effect, rows: seq<Row>, files: set<string>, userId: string, data: ItemData,
                       site: Site, rp: Replies, now: nat, generated: Row): Done<Row> {
    if data.image.None? then StoreStage(e, rows, files, userId, data, Null, site, rp, generated)
    else
      var path := UploadPath(userId, now, data.image.value);
      var u := UploadEffect(files, site.bucket, site.origin, userId, now, data.image.value, rp.upload);
      if u.1.Threw? then Done(cache, rows, u.0, Threw(u.1.thrown), [UploadFile(path)])
      else Prefixed([UploadFile(path)], StoreStage(e, rows, u.0, userId, data, Str(u.1.value), site, rp, generated))
  }

  /** `createItem(data)`; `now` is the clock and `generated` the columns
      the backend fills. */
  function CreateItemCall(cache: set<string>, rows: seq<Row>, files: set<string>, a: AuthReplies, data: ItemData, w: World,
                          site: Site, rp: Replies, now: nat, generated: Row): Done<Row> {
    var s := EnsureSession(a).0;
    if s.Threw? then Done(cache, rows, files, Threw(s.thrown), [SessionCheck])
    else Prefixed([SessionCheck], UploadStage(cache, Ensure(cache, ItemsTable, ItemsSchema, w), rows, files, s.value.id, data,
                                              site, rp, now, generated))
  }

  /** The update request of `updateItem`. */
  function WriteStage(cache: set<string>, rows: seq<Row>, files: set<string>, userId: string, id: string, data: ItemData,
                      imageUrl: Value, rp: Replies): Done<Row> {
    if rp.write.Fail? then Done(cache, rows, files, Threw(Rejected(rp.write.error)), [UpdateRequest])
    else
      var f, patch := OwnFilter(id, userId), ItemPatch(data, imageUrl);
      var one := SingleOf(Patched(Where(rows, f), patch));
      Done(cache, UpdateWhere(rows, f, patch), files,
           if one.data.Some? then Returned(one.data.value) else Threw(Rejected(NotOneRow())), [UpdateRequest])
  }

  /** `updateItem` once the owned item `existing` is found: with a new
      image, remove the old one if any and upload the new one; then write. */
  function ReplaceStage(cache: set<string>, rows: seq<Row>, files: set<string>, userId: string, id: string, data: ItemData,
                        existing: Row, site: Site, rp: Replies, now: nat): Done<Row> {
    if data.image.None? then WriteStage(cache, rows, files, userId, id, data, Field(existing, "image_url"), rp)
    else
      var d := DropIfAny(files, site, Field(existing, "image_url"), rp.remove);
      var path := UploadPath(userId, now, data.image.value);
      var u := UploadEffect(d.0, site.bucket, site.origin, userId, now, data.image.value, rp.upload);
      var steps := RemoveSteps(d.1) + [UploadFile(path)];
      if u.1.Threw? then Done(cache, rows, u.0, Threw(u.1.thrown), steps)
      else Prefixed(steps, WriteStage(cache, rows, u.0, userId, id, data, Str(u.1.value), rp))
  }

  /** `updateItem(data)` for the item `id`, after the checks. */
  function UpdateFrom(g: Gate, rows: seq<Row>, files: set<string>, id: string, data: ItemData, site: Site, rp: Replies, now: nat): Done<Row> {
    if g.Stop? then Done(g.cache, rows, files, Threw(g.thrown), g.steps)
    else
      var found := Owned(rows, id, g.userId, rp.lookup);
      if found.None? then Done(g.cache, rows, files, Threw(JsError(NotFound)), [SessionCheck, TableCheck, LookupRequest])
      else Prefixed([SessionCheck, TableCheck, LookupRequest], ReplaceStage(g.cache, rows, files, g.userId, id, data, found.value, site, rp, now))
  }

  function UpdateItemCall(cache: set<string>, rows: seq<Row>, files: set<string>, a: AuthReplies, id: string, data: ItemData,
                          w: World, site: Site, rp: Replies, now: nat): Done<Row> {
    UpdateFrom(Gated(cache, a, w), rows, files, id, data, site, rp, now)
  }

  /** `deleteItem` once the owned item is found: the row, then its image. */
  function RemoveStage(cache: set<string>, rows: seq<Row>, files: set<string>, userId: string, id: string, item: Row,
                       site: Site, rp: Replies): Done<()> {
    if rp.write.Fail? then Done(cache, rows, files, Threw(Rejected(rp.write.error)), [DeleteRequest])
    else
      var d := DropIfAny(files, site, Field(item, "image_url"), rp.remove);
      Done(cache, DeleteWhere(rows, OwnFilter(id, userId)), d.0, Returned(()), [DeleteRequest] + RemoveSteps(d.1))
  }

  /** `deleteItem(id)` after the checks. */
  function DeleteFrom(g: Gate, rows: seq<Row>, files: set<string>, id: string, site: Site, rp: Replies): Done<()> {
    if g.Stop? then Done(g.cache, rows, files, Threw(g.thrown), g.steps)
    else
      var found := Owned(rows, id, g.userId, rp.lookup);
      if found.None? then Done(g.cache, rows, files, Threw(JsError(NotFound)), [SessionCheck, TableCheck, LookupRequest])
      else Prefixed([SessionCheck, TableCheck, LookupRequest], RemoveStage(g.cache, rows, files, g.userId, id, found.value, site, rp))
  }

  function DeleteItemCall(cache: set<string>, rows: seq<Row>, files: set<string>, a: AuthReplies, id: string, w: World,
                          site: Site, rp: Replies): Done<()> {
    DeleteFrom(Gated(cache, a, w), rows, files, id, site, rp)
  }

  // ---------------------------------------------------------------------
  // The service methods
  // ---------------------------------------------------------------------

  /** `ensureSession`, then `ensureTableExists`. */
  method Enter(tm: TableCache, a: AuthReplies, w: World) returns (g: Gate)
    modifies tm
    ensures g == Gated(old(tm.cache), a, w) && tm.cache == g.cache
  {
    var session := EnsureSession(a).0;
    if session.Threw? {
      return Stop(tm.cache, session.thrown, [SessionCheck]);
    }
    var ensured, _ := tm.EnsureTableExists(ItemsTable, ItemsSchema, w);
    if ensured.Threw? {
      return Stop(tm.cache, ensured.thrown, [SessionCheck, TableCheck]);
    }
    g := Pass(tm.cache, session.value.id);
  }

  /** `getItems()` */
  method GetItems(tm: TableCache, items: Table, b: Bucket, a: AuthReplies, w: World, fault: Fault)
    returns (r: Outcome<seq<Row>>, steps: seq<Step>)
    modifies tm
    ensures Done(tm.cache, items.rows, b.files, r, steps) == GetItemsCall(old(tm.cache), items.rows, b.files, a, w, fault)
  {
    var g := Enter(tm, a, w);
    if g.Stop? {
      return Threw(g.thrown), g.steps;
    }
    steps := [SessionCheck, TableCheck, SelectRequest];
    if fault.Fail? {
      return Threw(Rejected(fault.error)), steps;
    }
    r := Returned(Run(items.rows, UserPlan(g.userId)));
  }

  /** `createItem(data)` */
  method CreateItem(tm: TableCache, items: Table, b: Bucket, a: AuthReplies, data: ItemData, w: World,
                    site: Site, rp: Replies, now: nat, generated: Row)
    returns (r: Outcome<Row>, steps: seq<Step>)
    modifies tm, items, b
    ensures Done(tm.cache, items.rows, b.files, r, steps)
         == CreateItemCall(old(tm.cache), old(items.rows), old(b.files), a, data, w, site, rp, now, generated)
  {
    var session := EnsureSession(a).0;
    if session.Threw? {
      return Threw(session.thrown), [SessionCheck];
    }
    var more;
    r, more := UploadThenStore(tm, items, b, session.value.id, data, w, site, rp, now, generated);
    steps := [SessionCheck] + more;
  }

  /** `createItem` once the user is known. */
  method UploadThenStore(tm: TableCache, items: Table, b: Bucket, userId: string, data: ItemData, w: World,
                         site: Site, rp: Replies, now: nat, generated: Row)
    returns (r: Outcome<Row>, steps: seq<Step>)
    modifies tm, items, b
    ensures Done(tm.cache, items.rows, b.files, r, steps)
         == UploadStage(old(tm.cache), Ensure(old(tm.cache), ItemsTable, ItemsSchema, w), old(items.rows), old(b.files), userId, data,
                        site, rp, now, generated)
  {
    var imageUrl := Null;
    steps := [];
    if data.image.Some? {
      var uploaded := UploadImage(b, site.bucket, site.origin, userId, now, data.image.value, rp.upload);
      steps := [UploadFile(UploadPath(userId, now, data.image.value))];
      if uploaded.Threw? {
        return Threw(uploaded.thrown), steps;
      }
      imageUrl := Str(uploaded.value);
    }
    var more;
    r, more := StoreItem(tm, items, b, userId, data, imageUrl, w, site, rp, generated);
    steps := steps + more;
  }

  /** `createItem` from the table check on. */
  method StoreItem(tm: TableCache, items: Table, b: Bucket, userId: string, data: ItemData, imageUrl: Value,
                   w: World, site: Site, rp: Replies, generated: Row)
    returns (r: Outcome<Row>, steps: seq<Step>)
    modifies tm, items, b
    ensures Done(tm.cache, items.rows, b.files, r, steps)
         == StoreStage(Ensure(old(tm.cache), ItemsTable, ItemsSchema, w), old(items.rows), old(b.files), userId, data, imageUrl,
                       site, rp, generated)
  {
    var ensured, _ := tm.EnsureTableExists(ItemsTable, ItemsSchema, w);
    if ensured.Threw? {
      return Threw(ensured.thrown), [TableCheck];
    }
    steps := [TableCheck, InsertRequest];
    if rp.write.Fail? {
      var removed := RemoveIfAny(b, site, imageUrl, rp.remove);
      return Threw(Rejected(rp.write.error)), steps + RemoveSteps(removed);
    }
    var inserted := items.Insert([InsertRow(userId, data, imageUrl)], [generated]);
    r := Returned(inserted[0]);
  }

  /** `if (url) await deleteImage(url)` */
  method RemoveIfAny(b: Bucket, site: Site, url: Value, reply: Fault) returns (removed: Option<string>)
    modifies b
    ensures (b.files, removed) == DropIfAny(old(b.files), site, url, reply)
  {
    removed := None;
    if url.Truthy() && url.Str? {
      removed := DeleteImage(b, site.bucket, site.pathnameOf(url.s), reply);
    }
  }

  /** `updateItem(data)` */
  method UpdateItem(tm: TableCache, items: Table, b: Bucket, a: AuthReplies, id: string, data: ItemData, w: World,
                    site: Site, rp: Replies, now: nat)
    returns (r: Outcome<Row>, steps: seq<Step>)
    modifies tm, items, b
    ensures Done(tm.cache, items.rows, b.files, r, steps)
         == UpdateItemCall(old(tm.cache), old(items.rows), old(b.files), a, id, data, w, site, rp, now)
  {
    var g := Enter(tm, a, w);
    if g.Stop? {
      return Threw(g.thrown), g.steps;
    }
    var found := Owned(items.rows, id, g.userId, rp.lookup);
    if found.None? {
      return Threw(JsError(NotFound)), [SessionCheck, TableCheck, LookupRequest];
    }
    var more;
    r, more := ReplaceItem(tm.cache, items, b, g.userId, id, data, found.value, site, rp, now);
    steps := [SessionCheck, TableCheck, LookupRequest] + more;
  }

  /** `updateItem` once the owned item is found; `cache` is the table
      cache, which this part leaves alone. */
  method ReplaceItem(cache: set<string>, items: Table, b: Bucket, userId: string, id: string, data: ItemData,
                     existing: Row, site: Site, rp: Replies, now: nat)
    returns (r: Outcome<Row>, steps: seq<Step>)
    modifies items, b
    ensures Done(cache, items.rows, b.files, r, steps)
         == ReplaceStage(cache, old(items.rows), old(b.files), userId, id, data, existing, site, rp, now)
  {
    var imageUrl := Field(existing, "image_url");
    steps := [];
    if data.image.Some? {
      var removed := RemoveIfAny(b, site, imageUrl, rp.remove);
      var uploaded := UploadImage(b, site.bucket, site.origin, userId, now, data.image.value, rp.upload);
      steps := RemoveSteps(removed) + [UploadFile(UploadPath(userId, now, data.image.value))];
      if uploaded.Threw? {
        return Threw(uploaded.thrown), steps;
      }
      imageUrl := Str(uploaded.value);
    }
    steps := steps + [UpdateRequest];
    if rp.write.Fail? {
      return Threw(Rejected(rp.write.error)), steps;
    }
    var updated := items.Update(OwnFilter(id, userId), ItemPatch(data, imageUrl));
    var one := SingleOf(updated);
    r := if one.data.Some? then Returned(one.data.value) else Threw(Rejected(NotOneRow()));
  }

  /** `deleteItem(id)` */
  method DeleteItem(tm: TableCache, items: Table, b: Bucket, a: AuthReplies, id: string, w: World, site: Site, rp: Replies)
    returns (r: Outcome<()>, steps: seq<Step>)
    modifies tm, items, b
    ensures Done(tm.cache, items.rows, b.files, r, steps)
         == DeleteItemCall(old(tm.cache), old(items.rows), old(b.files), a, id, w, site, rp)
  {
    var g := Enter(tm, a, w);
    if g.Stop? {
      return Threw(g.thrown), g.steps;
    }
    var found := Owned(items.rows, id, g.userId, rp.lookup);
    if found.None? {
      return Threw(JsError(NotFound)), [SessionCheck, TableCheck, LookupRequest];
    }
    var more;
    r, more := RemoveItem(tm.cache, items, b, g.userId, id, found.value, site, rp);
    steps := [SessionCheck, TableCheck, LookupRequest] + more;
  }

  /** `deleteItem` once the owned item is found. */
  method RemoveItem(cache: set<string>, items: Table, b: Bucket, userId: string, id: string, item: Row, site: Site, rp: Replies)
    returns (r: Outcome<()>, steps: seq<Step>)
    modifies items, b
    ensures Done(cache, items.rows, b.files, r, steps) == RemoveStage(cache, old(items.rows), old(b.files), userId, id, item, site, rp)
  {
    if rp.write.Fail? {
      return Threw(Rejected(rp.write.error)), [DeleteRequest];
    }
    items.Delete(OwnFilter(id, userId));
    var removed := RemoveIfAny(b, site, Field(item, "image_url"), rp.remove);
    r, steps := Returned(()), [DeleteRequest] + RemoveSteps(removed);
  }

  // ---------------------------------------------------------------------
  // What the calls promise
  // ---------------------------------------------------------------------

  /** The session is checked first and the table second; a failed check
      leaves the table cache as it was, and passing both has the items
      table in the cache. */
  lemma GateChecksSessionFirst(cache: set<string>, a: AuthReplies, w: World)
    ensures var g := Gated(cache, a, w);
      (g.Stop? ==> g.cache == cache && (g.steps == [SessionCheck] || g.steps == [SessionCheck, TableCheck]))
      && (g.Stop? && g.steps == [SessionCheck] <==> EnsureSession(a).0.Threw?)
      && (g.Pass? ==> ItemsTable in g.cache && EnsureSession(a).0 == Returned(User(g.userId)))
  {
    EnsureChecked(cache, ItemsTable, ItemsSchema, w);
  }

  /** A failed check stops every call before it reads or writes anything:
      the rows and the files stay, and what was thrown is rethrown. */
  lemma StoppedCallsChangeNothing(g: Gate, rows: seq<Row>, files: set<string>, fault: Fault, id: string, data: ItemData,
                                  site: Site, rp: Replies, now: nat)
    requires g.Stop?
    ensures GetItemsFrom(g, rows, files, fault) == Done(g.cache, rows, files, Threw(g.thrown), g.steps)
    ensures UpdateFrom(g, rows, files, id, data, site, rp, now) == Done(g.cache, rows, files, Threw(g.thrown), g.steps)
    ensures DeleteFrom(g, rows, files, id, site, rp) == Done(g.cache, rows, files, Threw(g.thrown), g.steps)
  {
  }

  /** `getItems` answers the user's rows, newest first, and rethrows a
      failed select's error rather than returning it. */
  lemma GetItemsOwnNewestFirst(g: Gate, rows: seq<Row>, files: set<string>, fault: Fault)
    requires g.Pass?
    ensures var d := GetItemsFrom(g, rows, files, fault);
      d.rows == rows && d.files == files && d.steps == [SessionCheck, TableCheck, SelectRequest]
      && (fault.Fail? ==> d.outcome == Threw(Rejected(fault.error)))
      && (fault.Ok? ==>
            d.outcome.Returned?
            && Sorted(d.outcome.value, Order("created_at", false))
            && multiset(d.outcome.value) == multiset(Where(rows, UserFilter(g.userId)))
            && forall row :: row in d.outcome.value ==> row in rows && Field(row, "user_id") == Str(g.userId))
  {
    var found := Run(rows, UserPlan(g.userId));
    forall row | row in found
      ensures row in rows && Field(row, "user_id") == Str(g.userId)
    {
      MatchesUser(row, g.userId);
    }
  }

  /** The stored row of an insert: the backend's columns under the ones
      written. */
  lemma StoredColumns(row: Row, generated: Row)
    requires forall k :: k in row ==> row[k] != Undefined
    ensures var stored := WithGenerated([row], [generated])[0];
      forall k :: k in row ==> Field(stored, k) == row[k]
  {
  }

  /** An image upload that succeeds continues with the table check and
      the insert, the image's public URL in hand. */
  lemma UploadedThenStored(cache: set<string>, e: Effect, rows: seq<Row>, files: set<string>, userId: string, data: ItemData,
                           site: Site, rp: Replies, now: nat, generated: Row)
    requires data.image.Some? && rp.upload.Ok? && UploadPath(userId, now, data.image.value) !in files
    ensures var path := UploadPath(userId, now, data.image.value);
      UploadStage(cache, e, rows, files, userId, data, site, rp, now, generated)
        == Prefixed([UploadFile(path)], StoreStage(e, rows, files + {path}, userId, data, Str(PublicUrl(site.origin, site.bucket, path)),
                                                   site, rp, generated))
  {
  }

  /** A successful table check and insert store the user's row with the
      title, the description and the image URL written. */
  lemma StoreInserts(e: Effect, rows: seq<Row>, files: set<string>, userId: string, data: ItemData, imageUrl: Value,
                     site: Site, rp: Replies, generated: Row)
    requires e.outcome.Returned? && rp.write.Ok? && imageUrl != Undefined
    ensures var d := StoreStage(e, rows, files, userId, data, imageUrl, site, rp, generated);
      d.outcome.Returned? && d.rows == rows + [d.outcome.value] && d.files == files && d.steps == [TableCheck, InsertRequest]
      && Field(d.outcome.value, "user_id") == Str(userId) && Field(d.outcome.value, "title") == Str(data.title)
      && Field(d.outcome.value, "description") == DescriptionValue(data.description)
      && Field(d.outcome.value, "image_url") == imageUrl
  {
    var row := InsertRow(userId, data, imageUrl);
    assert row["user_id"] == Str(userId) && row["title"] == Str(data.title);
    assert row["description"] == DescriptionValue(data.description) && row["image_url"] == imageUrl;
    StoredColumns(row, generated);
  }

  /** Once the user is known and the table check (effect `e`) and the
      insert succeed, `createItem` has uploaded the image first, if there
      is one, then inserted the user's row, whose `image_url` is the
      upload's public URL or `null` and whose empty description is `null`. */
  lemma CreateUploadsThenInserts(cache: set<string>, e: Effect, rows: seq<Row>, files: set<string>, userId: string, data: ItemData,
                                 site: Site, rp: Replies, now: nat, generated: Row)
    requires e.outcome.Returned? && rp.write.Ok?
    requires data.image.Some? ==> rp.upload.Ok? && UploadPath(userId, now, data.image.value) !in files
    ensures var d := UploadStage(cache, e, rows, files, userId, data, site, rp, now, generated);
      var path := UploadPath(userId, now, data.image.GetOr(""));
      d.outcome.Returned? && d.rows == rows + [d.outcome.value]
      && Field(d.outcome.value, "user_id") == Str(userId) && Field(d.outcome.value, "title") == Str(data.title)
      && Field(d.outcome.value, "description") == DescriptionValue(data.description)
      && Field(d.outcome.value, "image_url") == (if data.image.Some? then Str(PublicUrl(site.origin, site.bucket, path)) else Null)
      && d.files == (if data.image.Some? then files + {path} else files)
      && d.steps == (if data.image.Some? then [UploadFile(path)] else []) + [TableCheck, InsertRequest]
  {
    if data.image.Some? {
      var path := UploadPath(userId, now, data.image.value);
      UploadedThenStored(cache, e, rows, files, userId, data, site, rp, now, generated);
      StoreInserts(e, rows, files + {path}, userId, data, Str(PublicUrl(site.origin, site.bucket, path)), site, rp, generated);
    } else {
      StoreInserts(e, rows, files, userId, data, Null, site, rp, generated);
    }
  }

  /** Removing the image an upload to the default bucket answered takes
      out the uploaded file. */
  lemma DropUploaded(files: set<string>, site: Site, path: string, reply: Fault)
    requires path !in files && !Contains(path, DefaultBucket + "/") && reply.Ok? && site.bucket == DefaultBucket
    requires site.pathnameOf(PublicUrl(site.origin, DefaultBucket, path)) == Some(PublicPathname(DefaultBucket, path))
    ensures DropIfAny(files + {path}, site, Str(PublicUrl(site.origin, DefaultBucket, path)), reply) == (files, Some(path))
  {
    RemovesWhatWasStored(path);
    assert (files + {path}) - {path} == files;
  }

  /** When the insert fails after an upload to the default bucket, the
      uploaded file is removed again: the bucket is as before the call, the
      rows are unchanged and the insert's error is rethrown. */
  lemma CreateRemovesUploadOnFailedInsert(cache: set<string>, e: Effect, rows: seq<Row>, files: set<string>, userId: string,
                                          data: ItemData, site: Site, rp: Replies, now: nat, generated: Row)
    requires data.image.Some?
    requires var path := UploadPath(userId, now, data.image.value);
      rp.upload.Ok? && path !in files && !Contains(path, DefaultBucket + "/")
      && site.bucket == DefaultBucket
      && site.pathnameOf(PublicUrl(site.origin, DefaultBucket, path)) == Some(PublicPathname(DefaultBucket, path))
    requires e.outcome.Returned? && rp.write.Fail? && rp.remove.Ok?
    ensures var d := UploadStage(cache, e, rows, files, userId, data, site, rp, now, generated);
      var path := UploadPath(userId, now, data.image.value);
      d.files == files && d.rows == rows && d.outcome == Threw(Rejected(rp.write.error))
      && d.steps == [UploadFile(path), TableCheck, InsertRequest, RemoveFile(path)]
  {
    var path := UploadPath(userId, now, data.image.value);
    UploadedThenStored(cache, e, rows, files, userId, data, site, rp, now, generated);
    DropUploaded(files, site, path, rp.remove);
  }

  /** The upload comes before the table check, and only a failed insert
      removes it: when the table check throws, the uploaded file stays in
      the bucket. */
  lemma UploadOutlivesFailedTableCheck(cache: set<string>, e: Effect, rows: seq<Row>, files: set<string>, userId: string,
                                       data: ItemData, site: Site, rp: Replies, now: nat, generated: Row)
    requires data.image.Some? && rp.upload.Ok? && UploadPath(userId, now, data.image.value) !in files
    requires e.outcome.Threw?
    ensures var d := UploadStage(cache, e, rows, files, userId, data, site, rp, now, generated);
      var path := UploadPath(userId, now, data.image.value);
      d.files == files + {path} && path !in files && d.rows == rows
      && d.outcome == Threw(e.outcome.thrown) && d.steps == [UploadFile(path), TableCheck]
  {
    UploadedThenStored(cache, e, rows, files, userId, data, site, rp, now, generated);
  }

  /** `updateItem` and `deleteItem` throw before any storage request when
      the lookup fails or the user owns no item with the id: nothing
      changes. */
  lemma NotFoundBeforeStorage(g: Gate, rows: seq<Row>, files: set<string>, id: string, data: ItemData, site: Site, rp: Replies, now: nat)
    requires g.Pass?
    requires rp.lookup.Fail? || forall row :: row in rows ==> !(Field(row, "id") == Str(id) && Field(row, "user_id") == Str(g.userId))
    ensures var steps := [SessionCheck, TableCheck, LookupRequest];
      UpdateFrom(g, rows, files, id, data, site, rp, now) == Done(g.cache, rows, files, Threw(JsError(NotFound)), steps)
      && DeleteFrom(g, rows, files, id, site, rp) == Done(g.cache, rows, files, Threw(JsError(NotFound)), steps)
  {
    if rp.lookup.Ok? {
      forall row | row in rows
        ensures !Matches(row, OwnFilter(id, g.userId))
      {
        MatchesOwn(row, id, g.userId);
      }
      WhereNone(rows, OwnFilter(id, g.userId));
    }
  }

  /** Past the checks, with the owned item found, `updateItem` goes on with
      that item. */
  lemma UpdateFound(g: Gate, rows: seq<Row>, files: set<string>, id: string, data: ItemData, site: Site, rp: Replies, now: nat)
    requires g.Pass? && Owned(rows, id, g.userId, rp.lookup).Some?
    ensures UpdateFrom(g, rows, files, id, data, site, rp, now)
         == Prefixed([SessionCheck, TableCheck, LookupRequest],
                     ReplaceStage(g.cache, rows, files, g.userId, id, data, Owned(rows, id, g.userId, rp.lookup).value, site, rp, now))
  {
  }

  /** Past the checks, with the owned item found, `deleteItem` goes on with
      that item. */
  lemma DeleteFound(g: Gate, rows: seq<Row>, files: set<string>, id: string, site: Site, rp: Replies)
    requires g.Pass? && Owned(rows, id, g.userId, rp.lookup).Some?
    ensures DeleteFrom(g, rows, files, id, site, rp)
         == Prefixed([SessionCheck, TableCheck, LookupRequest],
                     RemoveStage(g.cache, rows, files, g.userId, id, Owned(rows, id, g.userId, rp.lookup).value, site, rp))
  {
  }

  /** The item an update writes: the title and description given, and
      the image URL given unless it is `undefined`. */
  lemma PatchedItem(existing: Row, data: ItemData, imageUrl: Value)
    ensures var r := Patch(existing, ItemPatch(data, imageUrl));
      Field(r, "title") == Str(data.title)
      && Field(r, "description") == DescriptionValue(data.description)
      && Field(r, "image_url") == (if imageUrl == Undefined then Field(existing, "image_url") else imageUrl)
  {
    var patch := ItemPatch(data, imageUrl);
    assert "title" in patch && patch["title"] == Str(data.title);
    assert "description" in patch && patch["description"] == DescriptionValue(data.description);
    assert "image_url" in patch && patch["image_url"] == imageUrl;
  }

  /** The one owned row, patched, is what an update of it answers: the
      title and description written, and the image URL written unless it
      is `undefined`. */
  lemma WriteOwned(cache: set<string>, rows: seq<Row>, files: set<string>, userId: string, id: string, data: ItemData,
                   existing: Row, imageUrl: Value, rp: Replies)
    requires Where(rows, OwnFilter(id, userId)) == [existing] && rp.write.Ok?
    ensures var d := WriteStage(cache, rows, files, userId, id, data, imageUrl, rp);
      d.outcome.Returned? && d.files == files && d.steps == [UpdateRequest]
      && Field(d.outcome.value, "title") == Str(data.title)
      && Field(d.outcome.value, "description") == DescriptionValue(data.description)
      && Field(d.outcome.value, "image_url") == (if imageUrl == Undefined then Field(existing, "image_url") else imageUrl)
  {
    var patched := Patched(Where(rows, OwnFilter(id, userId)), ItemPatch(data, imageUrl));
    assert |patched| == 1 && patched[0] == Patch(existing, ItemPatch(data, imageUrl));
    PatchedItem(existing, data, imageUrl);
  }

  /** Without a new image, `updateItem` on the found item makes no
      storage request and keeps the item's `image_url`. */
  lemma ReplaceKeepsImage(cache: set<string>, rows: seq<Row>, files: set<string>, userId: string, id: string, data: ItemData,
                          existing: Row, site: Site, rp: Replies, now: nat)
    requires data.image.None? && Where(rows, OwnFilter(id, userId)) == [existing] && rp.write.Ok?
    ensures var d := ReplaceStage(cache, rows, files, userId, id, data, existing, site, rp, now);
      d.files == files && d.steps == [UpdateRequest]
      && d.outcome.Returned? && Field(d.outcome.value, "image_url") == Field(existing, "image_url")
      && Field(d.outcome.value, "title") == Str(data.title)
      && Field(d.outcome.value, "description") == DescriptionValue(data.description)
  {
    WriteOwned(cache, rows, files, userId, id, data, existing, Field(existing, "image_url"), rp);
  }

  /** With a new image, once the owned item is found, the old image (if
      any) is removed before the upload, and the upload comes before the
      update; a failed upload throws after the old image is gone, leaving
      the row as it was. */
  lemma ReplaceInOrder(cache: set<string>, rows: seq<Row>, files: set<string>, userId: string, id: string, data: ItemData,
                       existing: Row, site: Site, rp: Replies, now: nat)
    requires data.image.Some? && Where(rows, OwnFilter(id, userId)) == [existing]
    ensures var d := ReplaceStage(cache, rows, files, userId, id, data, existing, site, rp, now);
      var dropped := DropIfAny(files, site, Field(existing, "image_url"), rp.remove);
      var path := UploadPath(userId, now, data.image.value);
      var uploaded := UploadRefusal(dropped.0, path, rp.upload).None?;
      d.steps == RemoveSteps(dropped.1) + [UploadFile(path)] + (if uploaded then [UpdateRequest] else [])
      && d.files == (if uploaded then dropped.0 + {path} else dropped.0)
      && (!uploaded ==> d.rows == rows && d.outcome.Threw?)
      && (uploaded && rp.write.Ok? ==>
            d.outcome.Returned? && Field(d.outcome.value, "image_url") == Str(PublicUrl(site.origin, site.bucket, path)))
  {
    var dropped := DropIfAny(files, site, Field(existing, "image_url"), rp.remove);
    var path := UploadPath(userId, now, data.image.value);
    if UploadRefusal(dropped.0, path, rp.upload).None? && rp.write.Ok? {
      WriteOwned(cache, rows, dropped.0 + {path}, userId, id, data, existing, Str(PublicUrl(site.origin, site.bucket, path)), rp);
    }
  }

  /** An update with a filter on the id and the user leaves every other
      row as it was. */
  lemma UpdateWhereOwn(rows: seq<Row>, id: string, userId: string, patch: Row)
    ensures var after := UpdateWhere(rows, OwnFilter(id, userId), patch);
      |after| == |rows|
      && forall k :: 0 <= k < |rows| && !(Field(rows[k], "id") == Str(id) && Field(rows[k], "user_id") == Str(userId))
           ==> after[k] == rows[k]
  {
    forall k | 0 <= k < |rows| && !(Field(rows[k], "id") == Str(id) && Field(rows[k], "user_id") == Str(userId))
      ensures UpdateWhere(rows, OwnFilter(id, userId), patch)[k] == rows[k]
    {
      MatchesOwn(rows[k], id, userId);
    }
  }

  /** `updateItem` on the found item changes the user's row with the id
      and no other. */
  lemma ReplaceTouchesOwnOnly(cache: set<string>, rows: seq<Row>, files: set<string>, userId: string, id: string, data: ItemData,
                              existing: Row, site: Site, rp: Replies, now: nat)
    ensures var d := ReplaceStage(cache, rows, files, userId, id, data, existing, site, rp, now);
      |d.rows| == |rows|
      && forall k :: 0 <= k < |rows| && !(Field(rows[k], "id") == Str(id) && Field(rows[k], "user_id") == Str(userId))
           ==> d.rows[k] == rows[k]
  {
    var url := if data.image.None? then Field(existing, "image_url")
               else Str(PublicUrl(site.origin, site.bucket, UploadPath(userId, now, data.image.value)));
    UpdateWhereOwn(rows, id, userId, ItemPatch(data, url));
  }

  /** `updateItem` changes the user's row with the id and no other. */
  lemma UpdateTouchesOwnOnly(g: Gate, rows: seq<Row>, files: set<string>, id: string, data: ItemData, site: Site, rp: Replies, now: nat)
    requires g.Pass?
    ensures var d := UpdateFrom(g, rows, files, id, data, site, rp, now);
      |d.rows| == |rows|
      && forall k :: 0 <= k < |rows| && !(Field(rows[k], "id") == Str(id) && Field(rows[k], "user_id") == Str(g.userId))
           ==> d.rows[k] == rows[k]
  {
    var found := Owned(rows, id, g.userId, rp.lookup);
    if found.Some? {
      UpdateFound(g, rows, files, id, data, site, rp, now);
      ReplaceTouchesOwnOnly(g.cache, rows, files, g.userId, id, data, found.value, site, rp, now);
    }
  }

  /** `deleteItem` on the found item deletes the row before the image: a
      failed delete throws and leaves the image; otherwise exactly the
      user's rows with the id are gone, the item among them, and then its
      image, if it had one. */
  lemma RemoveRowThenImage(cache: set<string>, rows: seq<Row>, files: set<string>, userId: string, id: string, item: Row,
                           site: Site, rp: Replies)
    requires Field(item, "id") == Str(id) && Field(item, "user_id") == Str(userId)
    ensures var d := RemoveStage(cache, rows, files, userId, id, item, site, rp);
      var dropped := DropIfAny(files, site, Field(item, "image_url"), rp.remove);
      (rp.write.Fail? ==> d.rows == rows && d.files == files && d.outcome == Threw(Rejected(rp.write.error))
                          && d.steps == [DeleteRequest])
      && (rp.write.Ok? ==>
            d.outcome == Returned(()) && d.files == dropped.0 && d.steps == [DeleteRequest] + RemoveSteps(dropped.1)
            && item !in d.rows
            && forall row :: row in d.rows <==> row in rows && !(Field(row, "id") == Str(id) && Field(row, "user_id") == Str(userId)))
  {
    if rp.write.Ok? {
      var after := DeleteWhere(rows, OwnFilter(id, userId));
      forall row
        ensures row in after <==> row in rows && !(Field(row, "id") == Str(id) && Field(row, "user_id") == Str(userId))
      {
        MatchesOwn(row, id, userId);
      }
    }
  }

  /** Deleting an item whose image was uploaded to the default bucket
      removes that file. */
  lemma RemoveDropsStoredImage(cache: set<string>, rows: seq<Row>, files: set<string>, userId: string, id: string, item: Row,
                               site: Site, rp: Replies, path: string)
    requires rp.write.Ok? && rp.remove.Ok? && site.bucket == DefaultBucket && !Contains(path, DefaultBucket + "/")
    requires Field(item, "image_url").Str? && Field(item, "image_url").Truthy()
    requires site.pathnameOf(Field(item, "image_url").s) == Some(PublicPathname(DefaultBucket, path))
    ensures var d := RemoveStage(cache, rows, files, userId, id, item, site, rp);
      d.files == files - {path} && RemoveFile(path) in d.steps
  {
    RemovesWhatWasStored(path);
  }
}
