/** From committed transactions on the server to published events: what the
    listener publishes is what an interpreter of the transactions themselves says. */
module EndToEnd {
  import opened Prelude
  import opened BigEndian
  import opened Protocol
  import opened RoundTrip
  import T = Transaction
  import P = Parser
  import L = Listener

  // ----- transactions and their meaning -----

  datatype Txn = Txn(lsn: int, xid: int, micros: int, flags: int, endLsn: int, body: seq<Wire>)

  /** The latest Relation message for every relation id. */
  type Catalogue = map<int, Wire>

  function Learn(cat: Catalogue, w: Wire): Catalogue {
    if w.WRelation? then cat[w.id := w] else cat
  }

  function CatalogueAfter(cat: Catalogue, body: seq<Wire>): Catalogue {
    if body == [] then cat else Learn(CatalogueAfter(cat, body[..|body| - 1]), body[|body| - 1])
  }

  /** The last of the first `n` columns that is called `name`. */
  function LastNamed(columns: seq<RelationColumn>, n: nat, name: Name): (i: nat)
    requires n <= |columns| && exists k :: 0 <= k < n && columns[k].name == name
    ensures i < n && columns[i].name == name && forall j :: i < j < n ==> columns[j].name != name
  {
    if columns[n - 1].name == name then n - 1 else LastNamed(columns, n - 1, name)
  }

  function CellValue(column: RelationColumn, c: Cell): T.Value {
    if c.Text? then T.Asserted(column.typeId, c.bytes) else T.Nil
  }

  /** The row's values under the names its columns have by position. */
  function NamedRow(columns: seq<RelationColumn>, row: Row): map<Name, T.Value>
    requires |row| <= |columns|
  {
    var names := set i | 0 <= i < |row| :: columns[i].name;
    map name | name in names :: var i := LastNamed(columns, |row|, name); CellValue(columns[i], row[i])
  }

  predicate IsRow(w: Wire) {
    w.WInsert? || w.WUpdate? || w.WDelete?
  }

  function OldRow(w: Wire): Row
    requires IsRow(w)
  {
    match w
    case WInsert(_, _) => []
    case WUpdate(_, NoOld, _) => []
    case WUpdate(_, Key(key), _) => key
    case WUpdate(_, Full(full), _) => full
    case WDelete(_, _, row) => row
  }

  function NewRow(w: Wire): Row
    requires IsRow(w)
  {
    match w
    case WInsert(_, row) => row
    case WUpdate(_, _, row) => row
    case WDelete(_, _, _) => []
  }

  function Kind(w: Wire): T.ActionKind
    requires IsRow(w)
  {
    match w
    case WInsert(_, _) => T.InsertAction
    case WUpdate(_, _, _) => T.UpdateAction
    case WDelete(_, _, _) => T.DeleteAction
  }

  /** No text for a JSONB column is empty: the server never sends one, and the
      conversion would panic on it. */
  predicate RowFits(columns: seq<RelationColumn>, row: Row) {
    && |row| <= |columns|
    && forall i :: 0 <= i < |row| ==> !(columns[i].typeId == T.JSONB_OID && row[i] == Text([]))
  }

  predicate CatalogueOk(cat: Catalogue) {
    forall id :: id in cat ==> cat[id].WRelation?
  }

  predicate MessageOk(cat: Catalogue, w: Wire) {
    && WireOk(w) && !w.WBegin? && !w.WCommit?
    && (IsRow(w) ==>
          && !Ambiguous(w)
          && w.id in cat && cat[w.id].WRelation?
          && RowFits(cat[w.id].columns, OldRow(w)) && RowFits(cat[w.id].columns, NewRow(w)))
  }

  predicate BodyOk(cat: Catalogue, body: seq<Wire>) {
    body != [] ==>
      var n := |body| - 1;
      BodyOk(cat, body[..n]) && MessageOk(CatalogueAfter(cat, body[..n]), body[n])
  }

  predicate TxnOk(cat: Catalogue, t: Txn) {
    && t.lsn != 0 && Fits(t.lsn, 8) && Fits(t.xid, 4) && Fits(t.flags, 1) && Fits(t.endLsn, 8)
    && Fits(t.micros, 8) && -9223372036854775 <= t.micros <= 9223372036854775
    && BodyOk(cat, t.body)
  }

  predicate TxnsOk(cat: Catalogue, txns: seq<Txn>) {
    txns != [] ==>
      var n := |txns| - 1;
      TxnsOk(cat, txns[..n]) && TxnOk(CatalogueAfterAll(cat, txns[..n]), txns[n])
  }

  function CatalogueAfterAll(cat: Catalogue, txns: seq<Txn>): Catalogue {
    if txns == [] then cat else CatalogueAfter(CatalogueAfterAll(cat, txns[..|txns| - 1]), txns[|txns| - 1].body)
  }

  function RowEvent(rel: Wire, w: Wire, micros: int): T.Event
    requires rel.WRelation? && IsRow(w) && RowFits(rel.columns, OldRow(w)) && RowFits(rel.columns, NewRow(w))
  {
    T.Event(rel.namespace, rel.name, Kind(w), NamedRow(rel.columns, NewRow(w)), NamedRow(rel.columns, OldRow(w)),
            micros * 1000)
  }

  /** What the interpreter says of a row message, field by field: schema and table
      as the relation was announced, the microseconds as nanoseconds, and under
      each column name the text of the last column of that name, if it has one. */
  lemma RowEventSays(rel: Wire, w: Wire, micros: int)
    requires rel.WRelation? && IsRow(w) && RowFits(rel.columns, OldRow(w)) && RowFits(rel.columns, NewRow(w))
    ensures var e := RowEvent(rel, w, micros);
            && e.schema == rel.namespace && e.table == rel.name && e.eventTime == micros * 1000
            && (e.action == T.InsertAction <==> w.WInsert?) && (e.action == T.UpdateAction <==> w.WUpdate?)
            && (e.action == T.DeleteAction <==> w.WDelete?)
            && SaysRow(rel.columns, if w.WDelete? then [] else w.row, e.data)
            && SaysRow(rel.columns, if w.WDelete? then w.row else if w.WInsert? || w.prior.NoOld? then []
                                    else if w.prior.Key? then w.prior.key else w.prior.full, e.dataOld)
  {
    NamedRowSays(rel.columns, NewRow(w));
    NamedRowSays(rel.columns, OldRow(w));
  }

  ghost predicate SaysRow(columns: seq<RelationColumn>, row: Row, data: map<Name, T.Value>) {
    && |row| <= |columns|
    && (forall name :: name in data <==> exists i :: 0 <= i < |row| && columns[i].name == name)
    && (forall i :: 0 <= i < |row| && (forall j :: i < j < |row| ==> columns[j].name != columns[i].name) ==>
          columns[i].name in data
          && data[columns[i].name] == if row[i].Text? then T.Asserted(columns[i].typeId, row[i].bytes) else T.Nil)
  }

  lemma LastIsNamed(columns: seq<RelationColumn>, n: nat, i: nat)
    requires i < n <= |columns| && forall j :: i < j < n ==> columns[j].name != columns[i].name
    ensures LastNamed(columns, n, columns[i].name) == i
  {
  }

  lemma NamesSaid(columns: seq<RelationColumn>, row: Row)
    requires |row| <= |columns|
    ensures forall name :: name in NamedRow(columns, row) <==> exists i :: 0 <= i < |row| && columns[i].name == name
  {
  }

  lemma NamedRowSays(columns: seq<RelationColumn>, row: Row)
    requires |row| <= |columns|
    ensures SaysRow(columns, row, NamedRow(columns, row))
  {
    NamesSaid(columns, row);
    forall i | 0 <= i < |row| && (forall j :: i < j < |row| ==> columns[j].name != columns[i].name)
      ensures columns[i].name in NamedRow(columns, row)
              && NamedRow(columns, row)[columns[i].name]
                 == if row[i].Text? then T.Asserted(columns[i].typeId, row[i].bytes) else T.Nil
    {
      LastIsNamed(columns, |row|, i);
    }
  }

  /** One event for each row message, under the commit time of its transaction. */
  function BodyEvents(cat: Catalogue, body: seq<Wire>, micros: int): seq<T.Event>
    requires BodyOk(cat, body)
  {
    if body == [] then [] else
    var n, w := |body| - 1, body[|body| - 1];
    BodyEvents(cat, body[..n], micros)
    + if IsRow(w) then [RowEvent(CatalogueAfter(cat, body[..n])[w.id], w, micros)] else []
  }

  function TxnEvents(cat: Catalogue, txns: seq<Txn>): seq<T.Event>
    requires TxnsOk(cat, txns)
  {
    if txns == [] then [] else
    var n := |txns| - 1;
    TxnEvents(cat, txns[..n]) + BodyEvents(CatalogueAfterAll(cat, txns[..n]), txns[n].body, txns[n].micros)
  }

  // ----- what the server sends -----

  function Messages(t: Txn): seq<Wire> {
    [WBegin(t.lsn, t.micros, t.xid)] + t.body + [WCommit(t.flags, t.lsn, t.endLsn, t.micros)]
  }

  function AllMessages(txns: seq<Txn>): seq<Wire> {
    if txns == [] then [] else AllMessages(txns[..|txns| - 1]) + Messages(txns[|txns| - 1])
  }

  predicate Carries(data: seq<byte>, w: Wire) {
    WireOk(w) && data == Encode(w)
  }

  /** `datas` are the encodings of the messages, one for one. */
  predicate CarriesAll(datas: seq<seq<byte>>, messages: seq<Wire>) {
    |datas| == |messages| && forall i :: 0 <= i < |datas| ==> Carries(datas[i], messages[i])
  }

  /** The WAL payloads of an inbox; heartbeats may stand anywhere between them. */
  function Carried(inbox: seq<L.ReplicationMessage>): seq<seq<byte>> {
    if inbox == [] then [] else
    var last := inbox[|inbox| - 1];
    Carried(inbox[..|inbox| - 1]) + if last.wal.Some? then [last.wal.value.walData] else []
  }

  function Furthest(lsn: nat, inbox: seq<L.ReplicationMessage>): nat {
    if inbox == [] then lsn else
    var last, so_far := inbox[|inbox| - 1], Furthest(lsn, inbox[..|inbox| - 1]);
    if last.wal.Some? && last.wal.value.walStart > so_far then last.wal.value.walStart else so_far
  }

  // ----- the listener when every message is accepted and every event published -----

  datatype Progress = Progress(tx: T.Tx, published: seq<T.Event>)

  function Publish(tx: T.Tx, published: seq<T.Event>): Progress {
    if tx.commitTime.None? then Progress(tx, published)
    else Progress(T.Clear(tx), published + T.EventsOf(tx.actions, tx.commitTime.value))
  }

  function Step(p: Progress, data: seq<byte>): Option<Progress> {
    match P.Parse(data, p.tx)
    case Accepted(tx) => Some(Publish(tx, p.published))
    case _ => None
  }

  function Steps(p: Progress, datas: seq<seq<byte>>): Option<Progress> {
    Fold(Step, p, datas)
  }

  lemma SettleProgress(w: L.World, position: nat, f: L.Fates)
    requires forall i :: f.publish(i)
    ensures var r := L.Settle(w, position, f);
            && r.Processed?
            && Progress(r.w.tx, r.w.published) == Publish(w.tx, w.published)
            && r.w.lsn == if position > w.lsn then position else w.lsn
  {
    if w.tx.commitTime.Some? {
      var batch := T.EventsOf(w.tx.actions, w.tx.commitTime.value);
      assert batch[..|batch|] == batch;
    }
  }

  /** With a publisher that never fails the loop is a fold of `Step`, whatever
      becomes of the statuses and wherever heartbeats stand. */
  lemma {:induction false} StreamedIsSteps(w: L.World, inbox: seq<L.ReplicationMessage>, f: L.Fates)
    requires forall i :: f.publish(i)
    requires Steps(Progress(w.tx, w.published), Carried(inbox)).Some?
    ensures var r := L.Streamed(w, inbox, f);
            && r.Some?
            && Some(Progress(r.value.tx, r.value.published)) == Steps(Progress(w.tx, w.published), Carried(inbox))
            && r.value.lsn == Furthest(w.lsn, inbox)
  {
    if inbox != [] {
      var n, last := |inbox| - 1, inbox[|inbox| - 1];
      if last.wal.Some? {
        assert Carried(inbox)[..|Carried(inbox)| - 1] == Carried(inbox[..n]);
        StreamedIsSteps(w, inbox[..n], f);
        ReceiveStep(L.Streamed(w, inbox[..n], f).value, last, f);
      } else {
        assert Carried(inbox) == Carried(inbox[..n]);
        StreamedIsSteps(w, inbox[..n], f);
      }
    }
  }

  lemma ReceiveStep(w: L.World, msg: L.ReplicationMessage, f: L.Fates)
    requires forall i :: f.publish(i)
    requires msg.wal.Some? && Step(Progress(w.tx, w.published), msg.wal.value.walData).Some?
    ensures var r := L.Receive(w, msg, f);
            && r.Some?
            && Some(Progress(r.value.tx, r.value.published)) == Step(Progress(w.tx, w.published), msg.wal.value.walData)
            && r.value.lsn == if msg.wal.value.walStart > w.lsn then msg.wal.value.walStart else w.lsn
  {
    var tx := P.Parse(msg.wal.value.walData, w.tx).tx;
    SettleProgress(w.(tx := tx), msg.wal.value.walStart, f);
  }

  // ----- one message -----

  function Store(cat: Catalogue): map<int, T.RelationData>
    requires CatalogueOk(cat)
  {
    map id | id in cat :: T.RelationData(cat[id].namespace, cat[id].name, T.BlankAll(cat[id].columns))
  }

  lemma ParseIsApply(w: Wire, tx: T.Tx)
    requires WireOk(w) && !Ambiguous(w)
    ensures P.Parse(Encode(w), tx) == T.Apply(tx, Meaning(w))
  {
    if Skipped(w) {
      assert Encode(w)[1..] == PutBody(w);
    } else {
      DecodeInvertsEncode(w);
    }
  }

  lemma FitsIsFillable(columns: seq<RelationColumn>, row: Row)
    ensures RowFits(columns, row) ==> T.Fillable(T.BlankAll(columns), SeenRow(row))
  {
  }

  lemma FilledAt(columns: seq<RelationColumn>, row: Row, i: nat)
    requires i < |row| <= |columns|
    ensures var filled := T.Fill(T.BlankAll(columns), SeenRow(row))[i];
            filled.name == columns[i].name && filled.value == CellValue(columns[i], row[i])
  {
  }

  lemma NamesOf(columns: seq<RelationColumn>, row: Row)
    requires |row| <= |columns|
    ensures T.ToData(T.Fill(T.BlankAll(columns), SeenRow(row))).Keys == NamedRow(columns, row).Keys
  {
    var filled := T.Fill(T.BlankAll(columns), SeenRow(row));
    T.DataMeaning(filled);
    forall i | 0 <= i < |row|
      ensures filled[i].name == columns[i].name
    {
      FilledAt(columns, row, i);
    }
  }

  lemma DataIsNamedRow(columns: seq<RelationColumn>, row: Row)
    requires |row| <= |columns|
    ensures T.ToData(T.Fill(T.BlankAll(columns), SeenRow(row))) == NamedRow(columns, row)
  {
    NamesOf(columns, row);
    forall name | name in NamedRow(columns, row)
      ensures T.ToData(T.Fill(T.BlankAll(columns), SeenRow(row)))[name] == NamedRow(columns, row)[name]
    {
      ValueOf(columns, row, name);
    }
  }

  lemma ValueOf(columns: seq<RelationColumn>, row: Row, name: Name)
    requires |row| <= |columns| && name in NamedRow(columns, row)
    ensures var data := T.ToData(T.Fill(T.BlankAll(columns), SeenRow(row)));
            name in data && data[name] == NamedRow(columns, row)[name]
  {
    var filled := T.Fill(T.BlankAll(columns), SeenRow(row));
    T.DataMeaning(filled);
    var i := LastNamed(columns, |row|, name);
    FilledAt(columns, row, i);
    forall j | i < j < |row|
      ensures filled[j].name != name
    {
      FilledAt(columns, row, j);
    }
  }

  lemma MeaningIsAppend(w: Wire, tx: T.Tx)
    requires IsRow(w)
    ensures T.Apply(tx, Meaning(w)) == T.Append(tx, w.id, SeenRow(OldRow(w)), SeenRow(NewRow(w)), Kind(w))
  {
    assert SeenRow([]) == [];
  }

  /** A row message adds the action whose event the interpreter expects. */
  lemma RowStep(rel: Wire, w: Wire, tx: T.Tx, micros: int)
    requires WireOk(w) && IsRow(w) && !Ambiguous(w) && rel.WRelation?
    requires RowFits(rel.columns, OldRow(w)) && RowFits(rel.columns, NewRow(w))
    requires w.id in tx.relations
    requires tx.relations[w.id] == T.RelationData(rel.namespace, rel.name, T.BlankAll(rel.columns))
    ensures var r := P.Parse(Encode(w), tx);
            && r.Accepted? && r.tx == tx.(actions := r.tx.actions)
            && T.EventsOf(r.tx.actions, micros * 1000)
               == T.EventsOf(tx.actions, micros * 1000) + [RowEvent(rel, w, micros)]
  {
    ParseIsApply(w, tx);
    MeaningIsAppend(w, tx);
    var oldRow, newRow := SeenRow(OldRow(w)), SeenRow(NewRow(w));
    var columns := T.BlankAll(rel.columns);
    FitsIsFillable(rel.columns, OldRow(w));
    FitsIsFillable(rel.columns, NewRow(w));
    DataIsNamedRow(rel.columns, OldRow(w));
    DataIsNamedRow(rel.columns, NewRow(w));
  }

  lemma StoreLearns(cat: Catalogue, w: Wire)
    requires CatalogueOk(cat) && w.WRelation?
    ensures Store(Learn(cat, w)) == Store(cat)[w.id := T.RelationData(w.namespace, w.name, T.BlankAll(w.columns))]
  {
  }

  lemma RelationStep(w: Wire, cat: Catalogue, tx: T.Tx)
    requires WireOk(w) && w.WRelation?
    requires CatalogueOk(cat) && tx.lsn != 0 && tx.relations == Store(cat)
    ensures P.Parse(Encode(w), tx) == T.Accepted(tx.(relations := Store(Learn(cat, w))))
  {
    ParseIsApply(w, tx);
    StoreLearns(cat, w);
  }

  lemma OtherStep(w: Wire, cat: Catalogue, tx: T.Tx)
    requires WireOk(w) && !IsRow(w) && !w.WBegin? && !w.WCommit?
    requires CatalogueOk(cat) && tx.lsn != 0 && tx.relations == Store(cat)
    ensures P.Parse(Encode(w), tx) == T.Accepted(tx.(relations := Store(Learn(cat, w))))
  {
    if w.WRelation? {
      RelationStep(w, cat, tx);
    } else {
      ParseIsApply(w, tx);
    }
  }

  // ----- one transaction -----

  predicate Following(tx: T.Tx, cat: Catalogue) {
    CatalogueOk(cat) && tx.commitTime.None? && tx.relations == Store(cat)
  }

  lemma BodyStep(q: Progress, now: Catalogue, w: Wire, micros: int, data: seq<byte>)
    requires MessageOk(now, w) && Carries(data, w) && Following(q.tx, now) && q.tx.lsn != 0
    ensures var r := Step(q, data);
            && r.Some? && r.value.published == q.published
            && Following(r.value.tx, Learn(now, w)) && r.value.tx.lsn == q.tx.lsn
            && T.EventsOf(r.value.tx.actions, micros * 1000)
               == T.EventsOf(q.tx.actions, micros * 1000) + if IsRow(w) then [RowEvent(now[w.id], w, micros)] else []
  {
    if IsRow(w) {
      RowStep(now[w.id], w, q.tx, micros);
    } else {
      OtherStep(w, now, q.tx);
    }
  }

  lemma LastCarried(datas: seq<seq<byte>>, messages: seq<Wire>)
    requires CarriesAll(datas, messages) && messages != []
    ensures var n := |messages| - 1; CarriesAll(datas[..n], messages[..n]) && Carries(datas[n], messages[n])
  {
    var n := |messages| - 1;
    assert Carries(datas[n], messages[n]);
    forall i | 0 <= i < n ensures Carries(datas[..n][i], messages[..n][i]) {
      assert Carries(datas[i], messages[i]);
    }
  }

  lemma {:induction false} BodySteps(p: Progress, cat: Catalogue, body: seq<Wire>, micros: int, datas: seq<seq<byte>>)
    requires BodyOk(cat, body) && CarriesAll(datas, body) && Following(p.tx, cat) && p.tx.lsn != 0 && p.tx.actions == []
    ensures var r := Steps(p, datas);
            && r.Some? && r.value.published == p.published
            && Following(r.value.tx, CatalogueAfter(cat, body)) && r.value.tx.lsn == p.tx.lsn
            && T.EventsOf(r.value.tx.actions, micros * 1000) == BodyEvents(cat, body, micros)
  {
    if body != [] {
      var n := |body| - 1;
      LastCarried(datas, body);
      BodySteps(p, cat, body[..n], micros, datas[..n]);
      BodyStep(Steps(p, datas[..n]).value, CatalogueAfter(cat, body[..n]), body[n], micros, datas[n]);
    }
  }

  lemma BeginStep(p: Progress, t: Txn, data: seq<byte>)
    requires p.tx.commitTime.None? && Carries(data, WBegin(t.lsn, t.micros, t.xid))
    ensures Step(p, data) == Some(p.(tx := p.tx.(lsn := t.lsn, beginTime := Some(Nanos(t.micros)))))
  {
    ParseIsApply(WBegin(t.lsn, t.micros, t.xid), p.tx);
  }

  lemma CommitStep(p: Progress, t: Txn, data: seq<byte>)
    requires Carries(data, WCommit(t.flags, t.lsn, t.endLsn, t.micros))
    requires p.tx.lsn == t.lsn && -9223372036854775 <= t.micros <= 9223372036854775
    ensures Step(p, data) == Some(Progress(T.Clear(p.tx), p.published + T.EventsOf(p.tx.actions, t.micros * 1000)))
  {
    ParseIsApply(WCommit(t.flags, t.lsn, t.endLsn, t.micros), p.tx);
    TimestampExact(t.micros);
  }

  lemma TxnSteps(p: Progress, cat: Catalogue, t: Txn, datas: seq<seq<byte>>)
    requires TxnOk(cat, t) && CarriesAll(datas, Messages(t)) && Following(p.tx, cat) && p.tx.actions == []
    ensures var r := Steps(p, datas);
            && r.Some? && r.value.published == p.published + BodyEvents(cat, t.body, t.micros)
            && Following(r.value.tx, CatalogueAfter(cat, t.body)) && r.value.tx.actions == []
  {
    var n := |t.body| + 1;
    SplitMessages(t, datas);
    BeginStep(p, t, datas[0]);
    var p1 := Step(p, datas[0]).value;
    BodySteps(p1, cat, t.body, t.micros, datas[1..n]);
    var p2 := Steps(p1, datas[1..n]).value;
    CommitStep(p2, t, datas[n]);
    FirstAndLast(p, datas, p1, p2);
  }

  lemma FirstAndLast(p: Progress, datas: seq<seq<byte>>, p1: Progress, p2: Progress)
    requires |datas| > 1 && Step(p, datas[0]) == Some(p1) && Steps(p1, datas[1..|datas| - 1]) == Some(p2)
    ensures Steps(p, datas) == Step(p2, datas[|datas| - 1])
  {
    var n := |datas| - 1;
    var body := datas[1..n];
    assert datas == [datas[0]] + body + [datas[n]];
    FoldFirst(Step, p, datas[0], p1, body);
    FoldSnoc(Step, p, [datas[0]] + body, datas[n]);
  }

  lemma SplitMessages(t: Txn, datas: seq<seq<byte>>)
    requires CarriesAll(datas, Messages(t))
    ensures |datas| == |t.body| + 2 && CarriesAll(datas[1..|t.body| + 1], t.body)
    ensures Carries(datas[0], WBegin(t.lsn, t.micros, t.xid))
    ensures Carries(datas[|t.body| + 1], WCommit(t.flags, t.lsn, t.endLsn, t.micros))
  {
    var ws := Messages(t);
    assert Carries(datas[0], ws[0]) && Carries(datas[|t.body| + 1], ws[|t.body| + 1]);
    forall i | 0 <= i < |t.body|
      ensures Carries(datas[1..|t.body| + 1][i], t.body[i])
    {
      assert Carries(datas[i + 1], ws[i + 1]);
    }
  }

  lemma CarriesPrefix(datas: seq<seq<byte>>, before: seq<Wire>, more: seq<Wire>)
    requires CarriesAll(datas, before + more)
    ensures |before| <= |datas| && CarriesAll(datas[..|before|], before) && CarriesAll(datas[|before|..], more)
  {
    var ws, n := before + more, |before|;
    forall i | 0 <= i < n ensures Carries(datas[..n][i], before[i]) {
      assert Carries(datas[i], ws[i]);
    }
    forall i | 0 <= i < |more| ensures Carries(datas[n..][i], more[i]) {
      assert Carries(datas[n + i], ws[n + i]);
    }
  }

  lemma {:induction false} TxnsSteps(p: Progress, cat: Catalogue, txns: seq<Txn>, datas: seq<seq<byte>>)
    requires TxnsOk(cat, txns) && CarriesAll(datas, AllMessages(txns)) && Following(p.tx, cat) && p.tx.actions == []
    ensures var r := Steps(p, datas);
            && r.Some? && r.value.published == p.published + TxnEvents(cat, txns)
            && Following(r.value.tx, CatalogueAfterAll(cat, txns)) && r.value.tx.actions == []
  {
    if txns == [] {
      assert p.published + [] == p.published;
    } else {
      var n := |txns| - 1;
      var k := |AllMessages(txns[..n])|;
      CarriesPrefix(datas, AllMessages(txns[..n]), Messages(txns[n]));
      TxnsSteps(p, cat, txns[..n], datas[..k]);
      var now := CatalogueAfterAll(cat, txns[..n]);
      MoreSteps(p, datas[..k], datas[k..], now, txns[n]);
      assert datas == datas[..k] + datas[k..];
      Associative(p.published, TxnEvents(cat, txns[..n]), BodyEvents(now, txns[n].body, txns[n].micros));
    }
  }

  lemma MoreSteps(p: Progress, sofar: seq<seq<byte>>, more: seq<seq<byte>>, now: Catalogue, t: Txn)
    requires Steps(p, sofar).Some?
    requires var q := Steps(p, sofar).value;
             TxnOk(now, t) && CarriesAll(more, Messages(t)) && Following(q.tx, now) && q.tx.actions == []
    ensures var r := Steps(p, sofar + more);
            && r.Some? && r.value.published == Steps(p, sofar).value.published + BodyEvents(now, t.body, t.micros)
            && Following(r.value.tx, CatalogueAfter(now, t.body)) && r.value.tx.actions == []
  {
    FoldCompose(Step, p, sofar, more);
    TxnSteps(Steps(p, sofar).value, now, t, more);
  }

  // ----- the whole run -----

  /** Main result. Whatever transactions the server commits, and however its
      heartbeats fall between their messages and whichever statuses get lost: a
      listener with nothing pending whose publisher does not fail publishes
      exactly the events of the transactions, in order, ends with nothing
      pending and with the latest relations stored, and has acknowledged the
      furthest position it was sent. */
  lemma PublishesTheTransactions(w: L.World, cat: Catalogue, txns: seq<Txn>, inbox: seq<L.ReplicationMessage>,
                                 f: L.Fates)
    requires TxnsOk(cat, txns) && Following(w.tx, cat) && w.tx.actions == []
    requires CarriesAll(Carried(inbox), AllMessages(txns))
    requires forall i :: f.publish(i)
    ensures var r := L.Streamed(w, inbox, f);
            && r.Some?
            && r.value.published == w.published + TxnEvents(cat, txns)
            && r.value.tx.actions == [] && Following(r.value.tx, CatalogueAfterAll(cat, txns))
            && r.value.lsn == Furthest(w.lsn, inbox)
  {
    TxnsSteps(Progress(w.tx, w.published), cat, txns, Carried(inbox));
    StreamedIsSteps(w, inbox, f);
  }
}
