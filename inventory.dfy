/**
 * The inventory server actions: `saveItemDraft` (create-or-update keyed on the id, images
 * stored serialised) and `getRecentItems` (the ten newest rows, images parsed back).
 * The database table is a map from id to row; `createdAt` is a creation counter, and
 * `created` lists the ids in creation order, so a row's `createdAt` is its position there.
 */
module Inventory {
  import opened Common
  import ImageCodec

  type Id = string

  /** The fields of a save request that the store copies into the row as they are. */
  datatype ItemFields = ItemFields(
    brand: string,
    model: string,
    size: string,
    style: string,
    color: string,
    gender: string,
    condition: string,
    title: string,
    description: string,
    disclaimer: string,
    targetPrice: Option<real>,
    price: Option<real>,
    status: string)

  /** The data passed to `saveItemDraft`. */
  datatype SaveRequest = SaveRequest(id: Option<Id>, images: Option<seq<string>>, fields: ItemFields)

  /** A stored row; `images` holds the serialised list (possibly null or empty). */
  datatype ItemRecord = ItemRecord(id: Id, fields: ItemFields, images: Option<string>, createdAt: nat)

  /** The table: rows by id, and the ids in creation order. */
  datatype Table = Table(rows: map<Id, ItemRecord>, created: seq<Id>)

  /** A row as `getRecentItems` returns it, with the image list parsed. */
  datatype ItemView = ItemView(id: Id, fields: ItemFields, images: seq<string>, createdAt: nat)

  /** The result of a save: the new table and the row written, or the error raised. */
  datatype SaveResult = Saved(table: Table, record: ItemRecord) | SaveFailed(message: string)

  const SaveFailedMessage := "Failed to save item draft."
  const RecentLimit := 10

  /** `images ? JSON.parse(images) : []`: a null or empty column reads as the empty list. */
  function ReadImages(stored: Option<string>): Option<seq<string>>
  {
    if stored.None? || stored.value == "" then Some([]) else ImageCodec.Parse(stored.value)
  }

  /** `JSON.stringify(data.images || [])`. */
  function StoredImages(data: SaveRequest): string
  {
    ImageCodec.Serialize(if data.images.Some? then data.images.value else [])
  }

  /** The sequence of images a request stands for (`[]` when absent). */
  function RequestImages(data: SaveRequest): seq<string>
  {
    if data.images.Some? then data.images.value else []
  }

  /**
   * The table's structure: creation order lists each row once, and each row's createdAt is its
   * position in that order.
   */
  ghost predicate Indexed(t: Table)
  {
    && (forall i, j :: 0 <= i < j < |t.created| ==> t.created[i] != t.created[j])
    && (forall i :: 0 <= i < |t.created| ==> t.created[i] in t.rows)
    && (forall k :: k in t.rows ==>
          && t.rows[k].id == k
          && t.rows[k].createdAt < |t.created|
          && t.created[t.rows[k].createdAt] == k)
  }

  /** The invariant `saveItemDraft` keeps: the structure, and every stored image column parses. */
  ghost predicate WellFormed(t: Table)
  {
    Indexed(t) && forall k :: k in t.rows ==> ReadImages(t.rows[k].images).Some?
  }

  /** The request names a row that exists (`data.id` is truthy and found). */
  predicate UpdatesExisting(t: Table, data: SaveRequest)
  {
    data.id.Some? && data.id.value != "" && data.id.value in t.rows
  }

  /** The id a create uses: the request's own id when it carries one, else the generated one. */
  function NewId(data: SaveRequest, generatedId: Id): Id
  {
    if data.id.Some? then data.id.value else generatedId
  }

  /**
   * The fields a Prisma `update` leaves in the row: a key whose value is `undefined` is skipped,
   * so the two optional price columns keep their stored value when the request omits them.
   */
  function UpdatedFields(stored: ItemFields, sent: ItemFields): ItemFields
  {
    sent.(targetPrice := if sent.targetPrice.Some? then sent.targetPrice else stored.targetPrice,
          price := if sent.price.Some? then sent.price else stored.price)
  }

  /**
   * `saveItemDraft` on the table. `failure` stands for a database error; a create whose id is
   * already taken fails on the id's uniqueness. Every failure surfaces as the same message.
   */
  function ApplySave(t: Table, data: SaveRequest, generatedId: Id, failure: bool): SaveResult
  {
    if failure then SaveFailed(SaveFailedMessage)
    else if UpdatesExisting(t, data) then
      var k := data.id.value;
      var rec := ItemRecord(k, UpdatedFields(t.rows[k].fields, data.fields), Some(StoredImages(data)),
                            t.rows[k].createdAt);
      Saved(Table(t.rows[k := rec], t.created), rec)
    else
      var k := NewId(data, generatedId);
      if k in t.rows then SaveFailed(SaveFailedMessage)
      else
        var rec := ItemRecord(k, data.fields, Some(StoredImages(data)), |t.created|);
        Saved(Table(t.rows[k := rec], t.created + [k]), rec)
  }

  /** Saving keeps the table's invariant. */
  lemma SaveKeepsWellFormed(t: Table, data: SaveRequest, generatedId: Id, failure: bool)
    requires WellFormed(t)
    ensures ApplySave(t, data, generatedId, failure).Saved? ==>
      WellFormed(ApplySave(t, data, generatedId, failure).table)
  {
    ImageCodec.RoundTrip(RequestImages(data));
    var r := ApplySave(t, data, generatedId, failure);
    if r.Saved? && !UpdatesExisting(t, data) {
      var k := NewId(data, generatedId);
      var c := r.table.created;
      assert c == t.created + [k];
      forall i, j | 0 <= i < j < |c| ensures c[i] != c[j] {
        if j == |t.created| {
          assert c[i] == t.created[i] && t.created[i] in t.rows;
        }
      }
    }
  }

  /**
   * A save naming an existing row rewrites that row in place: same keys, same createdAt, one
   * row touched. Every field the request defines is replaced; a price or target price the
   * request leaves undefined keeps its stored value.
   */
  lemma SaveUpdatesInPlace(t: Table, data: SaveRequest, generatedId: Id)
    requires UpdatesExisting(t, data)
    ensures var r := ApplySave(t, data, generatedId, false);
      var k := data.id.value;
      && r.Saved?
      && r.table.rows.Keys == t.rows.Keys
      && r.table.created == t.created
      && r.record == r.table.rows[k]
      && r.record.fields.(targetPrice := data.fields.targetPrice, price := data.fields.price) == data.fields
      && (data.fields.price.Some? ==> r.record.fields.price == data.fields.price)
      && (data.fields.price.None? ==> r.record.fields.price == t.rows[k].fields.price)
      && (data.fields.targetPrice.Some? ==> r.record.fields.targetPrice == data.fields.targetPrice)
      && (data.fields.targetPrice.None? ==> r.record.fields.targetPrice == t.rows[k].fields.targetPrice)
      && r.record.createdAt == t.rows[k].createdAt
      && (forall k' :: k' in t.rows && k' != k ==> r.table.rows[k'] == t.rows[k'])
  {
  }

  /** A save without an existing id adds exactly one row, the newest, under a fresh key. */
  lemma SaveCreatesOne(t: Table, data: SaveRequest, generatedId: Id)
    requires !UpdatesExisting(t, data) && NewId(data, generatedId) !in t.rows
    ensures var r := ApplySave(t, data, generatedId, false);
      var k := NewId(data, generatedId);
      && r.Saved?
      && r.table.rows.Keys == t.rows.Keys + {k}
      && |r.table.rows| == |t.rows| + 1
      && r.table.created == t.created + [k]
      && r.record == r.table.rows[k]
      && r.record.fields == data.fields
      && r.record.createdAt == |t.created|
      && (forall k' :: k' in t.rows ==> r.table.rows[k'] == t.rows[k'])
  {
  }

  /** A save fails exactly on a database error or a taken id, and always with the one message. */
  lemma SaveFailures(t: Table, data: SaveRequest, generatedId: Id, failure: bool)
    ensures var r := ApplySave(t, data, generatedId, failure);
      && (r.SaveFailed? <==>
            failure || (!UpdatesExisting(t, data) && NewId(data, generatedId) in t.rows))
      && (r.SaveFailed? ==> r.message == "Failed to save item draft.")
  {
  }

  /** The stored image column is the serialised request list, and it reads back as that list. */
  lemma SavedImagesReadBack(t: Table, data: SaveRequest, generatedId: Id, failure: bool)
    requires ApplySave(t, data, generatedId, failure).Saved?
    ensures var rec := ApplySave(t, data, generatedId, failure).record;
      && rec.images == Some(ImageCodec.Serialize(RequestImages(data)))
      && ReadImages(rec.images) == Some(RequestImages(data))
  {
    ImageCodec.RoundTrip(RequestImages(data));
  }

  // ---------------------------------------------------------------------------------------
  // Reading

  lemma {:induction false} DistinctCard(s: seq<Id>)
    requires forall i, j :: 0 <= i < j < |s| ==> s[i] != s[j]
    ensures |(set x | x in s)| == |s|
    decreases |s|
  {
    if s != [] {
      var p := s[..|s| - 1];
      DistinctCard(p);
      assert s == p + [s[|s| - 1]];
      assert (set x | x in s) == (set x | x in p) + {s[|s| - 1]};
    }
  }

  /** An indexed table has exactly one row per entry of its creation order. */
  lemma RowCount(t: Table)
    requires Indexed(t)
    ensures |t.rows| == |t.created|
  {
    DistinctCard(t.created);
    assert t.rows.Keys == (set x | x in t.created);
  }

  function RecentCount(t: Table): nat
  {
    if |t.created| < RecentLimit then |t.created| else RecentLimit
  }

  /** `findMany({ orderBy: { createdAt: 'desc' }, take: 10 })`. */
  function RecentRows(t: Table): seq<ItemRecord>
    requires Indexed(t)
  {
    var n := |t.created|;
    seq(RecentCount(t), i requires 0 <= i < RecentCount(t) => t.rows[t.created[n - 1 - i]])
  }

  /**
   * The recent rows are rows of the table, at most ten (fewer only when the table is smaller),
   * strictly newest first, and no row left out is newer than any row returned.
   */
  lemma RecentRowsAreNewest(t: Table)
    requires Indexed(t)
    ensures var r := RecentRows(t);
      && |r| == (if |t.rows| < 10 then |t.rows| else 10)
      && (forall i :: 0 <= i < |r| ==> r[i].id in t.rows && t.rows[r[i].id] == r[i])
      && (forall i, j :: 0 <= i < j < |r| ==> r[i].createdAt > r[j].createdAt)
      && (forall k :: k in t.rows && t.rows[k] !in r ==>
            forall i :: 0 <= i < |r| ==> t.rows[k].createdAt < r[i].createdAt)
  {
    RowCount(t);
    var r := RecentRows(t);
    var n := |t.created|;
    forall i | 0 <= i < |r| ensures r[i].createdAt == n - 1 - i {
      var k := t.created[n - 1 - i];
      assert t.created[t.rows[k].createdAt] == k;
    }
    forall k | k in t.rows
      ensures t.rows[k] !in r ==> forall i :: 0 <= i < |r| ==> t.rows[k].createdAt < r[i].createdAt
    {
      var c := t.rows[k].createdAt;
      if c >= n - |r| {
        assert r[n - 1 - c] == t.rows[k];
      }
    }
  }

  /** The rows with their image lists parsed; None when any one of them fails to parse. */
  function ParseRows(rows: seq<ItemRecord>): Option<seq<ItemView>>
    decreases |rows|
  {
    if rows == [] then Some([])
    else match ReadImages(rows[0].images)
      case None => None
      case Some(images) =>
        match ParseRows(rows[1..])
        case None => None
        case Some(rest) => Some([ItemView(rows[0].id, rows[0].fields, images, rows[0].createdAt)] + rest)
  }

  /** Parsing fails exactly when some row fails; otherwise each row keeps its fields and gets its parsed images. */
  lemma {:induction false} ParseRowsSpec(rows: seq<ItemRecord>)
    ensures ParseRows(rows).None? <==> exists i :: 0 <= i < |rows| && ReadImages(rows[i].images).None?
    ensures ParseRows(rows).Some? ==>
      var v := ParseRows(rows).value;
      && |v| == |rows|
      && forall i :: 0 <= i < |rows| ==>
           v[i] == ItemView(rows[i].id, rows[i].fields, ReadImages(rows[i].images).value, rows[i].createdAt)
    decreases |rows|
  {
    if rows != [] {
      ParseRowsSpec(rows[1..]);
      if ReadImages(rows[0].images).Some? && ParseRows(rows[1..]).None? {
        var i :| 0 <= i < |rows[1..]| && ReadImages(rows[1..][i].images).None?;
        assert ReadImages(rows[i + 1].images).None?;
      }
      if ParseRows(rows).Some? {
        var v := ParseRows(rows).value;
        forall i | 0 <= i < |rows|
          ensures v[i] == ItemView(rows[i].id, rows[i].fields, ReadImages(rows[i].images).value, rows[i].createdAt)
        {
          if i > 0 {
            assert rows[1..][i - 1] == rows[i];
          }
        }
      }
    }
  }

  /** `getRecentItems`: the recent rows with images parsed, or `[]` when the read fails. */
  function GetRecentItems(t: Table, failure: bool): seq<ItemView>
    requires Indexed(t)
  {
    if failure then []
    else match ParseRows(RecentRows(t))
      case None => []
      case Some(v) => v
  }

  /**
   * A failed read gives `[]`; otherwise every recent row comes back, in order, with its fields
   * and its images parsed from the stored column.
   */
  lemma RecentItemsReadBack(t: Table, failure: bool)
    requires WellFormed(t)
    ensures failure ==> GetRecentItems(t, failure) == []
    ensures !failure ==>
      var v := GetRecentItems(t, failure);
      var rows := RecentRows(t);
      && |v| == |rows|
      && forall i :: 0 <= i < |rows| ==>
           v[i] == ItemView(rows[i].id, rows[i].fields, ReadImages(rows[i].images).value, rows[i].createdAt)
  {
    var rows := RecentRows(t);
    RecentRowsAreNewest(t);
    ParseRowsSpec(rows);
    forall i | 0 <= i < |rows| ensures ReadImages(rows[i].images).Some? {
      assert t.rows[rows[i].id] == rows[i];
    }
  }

  /**
   * One recent row whose image column does not parse makes `JSON.parse` throw inside the
   * `try`, so the whole read returns `[]`.
   */
  lemma UnparsableRecentRowEmptiesRead(t: Table, i: nat)
    requires Indexed(t)
    requires i < |RecentRows(t)| && ReadImages(RecentRows(t)[i].images).None?
    ensures GetRecentItems(t, false) == []
  {
    ParseRowsSpec(RecentRows(t));
  }

  /** After creating a draft, the first recent item is that draft, with exactly the images saved. */
  lemma CreatedDraftReadsBackFirst(t: Table, data: SaveRequest, generatedId: Id)
    requires WellFormed(t)
    requires !UpdatesExisting(t, data) && NewId(data, generatedId) !in t.rows
    ensures var t' := ApplySave(t, data, generatedId, false).table;
      WellFormed(t') &&
      var v := GetRecentItems(t', false);
      |v| > 0 && v[0] == ItemView(NewId(data, generatedId), data.fields, RequestImages(data), |t.created|)
  {
    var r := ApplySave(t, data, generatedId, false);
    SaveKeepsWellFormed(t, data, generatedId, false);
    SavedImagesReadBack(t, data, generatedId, false);
    RecentItemsReadBack(r.table, false);
    RowCount(r.table);
    assert RecentRows(r.table)[0] == r.record;
  }

  /** The table as a mutable store; `saveItemDraft` updates or inserts a row in place. */
  class InventoryStore {
    var rows: map<Id, ItemRecord>
    var created: seq<Id>

    function Snapshot(): Table
      reads this
    {
      Table(rows, created)
    }

    ghost predicate Valid()
      reads this
    {
      WellFormed(Snapshot())
    }

    constructor ()
      ensures Valid() && rows == map[] && created == []
    {
      rows, created := map[], [];
    }

    method SaveItemDraft(data: SaveRequest, generatedId: Id, failure: bool) returns (r: Outcome<ItemRecord>)
      requires Valid()
      modifies this
      ensures Valid()
      ensures match ApplySave(old(Snapshot()), data, generatedId, failure)
        case Saved(t, rec) => Snapshot() == t && r == Ok(rec)
        case SaveFailed(m) => Snapshot() == old(Snapshot()) && r == Err(m)
    {
      ghost var before := Snapshot();
      SaveKeepsWellFormed(before, data, generatedId, failure);
      if failure {
        return Err(SaveFailedMessage);
      }
      var images := Some(StoredImages(data));
      if data.id.Some? && data.id.value != "" && data.id.value in rows {
        var k := data.id.value;
        var fields := data.fields;
        if fields.targetPrice.None? {
          fields := fields.(targetPrice := rows[k].fields.targetPrice);
        }
        if fields.price.None? {
          fields := fields.(price := rows[k].fields.price);
        }
        var rec := ItemRecord(k, fields, images, rows[k].createdAt);
        rows := rows[k := rec];
        r := Ok(rec);
      } else {
        var k := if data.id.Some? then data.id.value else generatedId;
        if k in rows {
          return Err(SaveFailedMessage);
        }
        var rec := ItemRecord(k, data.fields, images, |created|);
        rows := rows[k := rec];
        created := created + [k];
        r := Ok(rec);
      }
    }
  }
}
