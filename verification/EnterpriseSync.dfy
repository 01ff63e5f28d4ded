/** Uploads, privacy updates and the default search of the enterprise-sync store. */
module EnterpriseSync {
  import opened Substrings

  datatype Row = Row(fileName: Bytes, creator: Bytes, tool: Bytes, keywords: Bytes, size: nat, isPrivate: bool)

  /** The table and the stored files, both by hash. */
  datatype Store = Store(rows: map<Bytes, Row>, files: map<Bytes, Bytes>)

  /** What happens to the store, one atomic action at a time. An upload creates or truncates its file, writes its data
      in pieces, and inserts its row when all were written; requests run concurrently, so the actions of uploads
      interleave, and an upload that fails just stops. */
  datatype Action =
    | Create(hash: Bytes)
    | Put(hash: Bytes, at: nat, bytes: Bytes)
    | Insert(hash: Bytes, fileName: Bytes, creator: Bytes, tool: Bytes, data: Bytes)
    | UpdateTool(hash: Bytes, body: Bytes)

  const MISSION_PACKAGE: Bytes := "missionpackage"

  /** The keywords as stored: a JSON array whose last entry is fixed. */
  function Keywords(jsonName: Bytes, jsonCreator: Bytes): Bytes {
    "[" + jsonName + "," + jsonCreator + ",\"" + MISSION_PACKAGE + "\"]"
  }

  function Zeros(n: nat): (r: Bytes)
    ensures |r| == n
  {
    seq(n, _ => 0 as char)
  }

  /** A file after `bytes` were written at offset `at`: a gap is filled with zeros, what lies behind stays. */
  function Overlay(file: Bytes, at: nat, bytes: Bytes): (r: Bytes)
    ensures |r| == if bytes != [] && at + |bytes| > |file| then at + |bytes| else |file|
    ensures at == |file| ==> r == file + bytes
  {
    if bytes == [] then file
    else
      var front := if at <= |file| then file[..at] else file + Zeros(at - |file|);
      front + bytes + (if at + |bytes| < |file| then file[at + |bytes|..] else [])
  }

  /** One action; the hash is the row's key, and an insert keeps the privacy of the row it replaces. */
  function Serve(json: Bytes -> Bytes, store: Store, a: Action): Store {
    match a
    case Create(h) => store.(files := store.files[h := []])
    case Put(h, at, bytes) =>
      if h in store.files then store.(files := store.files[h := Overlay(store.files[h], at, bytes)]) else store
    case Insert(h, name, creator, tool, data) =>
      var p := if h in store.rows then store.rows[h].isPrivate else false;
      store.(rows := store.rows[h := Row(name, creator, tool, Keywords(json(name), json(creator)), |data|, p)])
    case UpdateTool(h, body) =>
      if h in store.rows then store.(rows := store.rows[h := store.rows[h].(isPrivate := body == "private")]) else store
  }

  function ServeAll(json: Bytes -> Bytes, log: seq<Action>): Store {
    if log == [] then Store(map[], map[]) else Serve(json, ServeAll(json, log[..|log| - 1]), log[|log| - 1])
  }

  /** The default search: tool `public`, not private, keyword `missionpackage`. */
  ghost predicate Listed(store: Store, h: Bytes) {
    h in store.rows && store.rows[h].tool == "public" && !store.rows[h].isPrivate
    && Occurs(store.rows[h].keywords, MISSION_PACKAGE)
  }

  // ---- What the log says of the table ----

  predicate Stores(a: Action, h: Bytes) { a.Insert? && a.hash == h }
  predicate Marks(a: Action, h: Bytes) { a.UpdateTool? && a.hash == h }

  ghost predicate LatestInsert(log: seq<Action>, i: int, h: Bytes) {
    0 <= i < |log| && Stores(log[i], h) && forall j | i < j < |log| :: !Stores(log[j], h)
  }

  /** The last privacy update of `h` came after an upload of `h` and said private. */
  ghost predicate MarkedPrivate(log: seq<Action>, f: int, j: int, h: Bytes) {
    && 0 <= f < j < |log| && Stores(log[f], h) && Marks(log[j], h) && log[j].body == "private"
    && forall k | j < k < |log| :: !Marks(log[k], h)
  }

  lemma KeywordsMatch(name: Bytes, creator: Bytes)
    ensures Occurs(Keywords(name, creator), MISSION_PACKAGE)
  {
    var front := "[" + name + "," + creator + ",\"";
    assert Keywords(name, creator) == front + (MISSION_PACKAGE + "\"]");
    OccursAppend(MISSION_PACKAGE, "\"]", MISSION_PACKAGE, 0);
    assert OccursAt(MISSION_PACKAGE, MISSION_PACKAGE, 0);
    OccursAfter(front, MISSION_PACKAGE + "\"]", MISSION_PACKAGE, 0);
  }

  /** The row says what the upload said. */
  ghost predicate RowSays(json: Bytes -> Bytes, row: Row, a: Action)
    requires a.Insert?
  {
    && row.fileName == a.fileName && row.creator == a.creator && row.tool == a.tool && row.size == |a.data|
    && row.keywords == "[" + json(a.fileName) + "," + json(a.creator) + ",\"missionpackage\"]"
  }

  lemma InsertSays(json: Bytes -> Bytes, store: Store, a: Action)
    requires a.Insert?
    ensures var rows := Serve(json, store, a).rows; a.hash in rows && RowSays(json, rows[a.hash], a)
  {
  }

  lemma OtherRowsStay(json: Bytes -> Bytes, store: Store, a: Action, h: Bytes)
    requires !Stores(a, h)
    ensures var rows := Serve(json, store, a).rows;
            && (h in rows <==> h in store.rows)
            && (h in rows ==> rows[h] == store.rows[h].(isPrivate := rows[h].isPrivate))
  {
    hide Keywords, Overlay;
  }

  /** A row exists since its first upload and says what the latest one said; every row matches the default keyword. */
  lemma {:induction false} RowIsLatestUpload(json: Bytes -> Bytes, log: seq<Action>, h: Bytes)
    ensures var rows := ServeAll(json, log).rows;
            && (h in rows <==> exists i :: LatestInsert(log, i, h))
            && (forall i | LatestInsert(log, i, h) ::
                  h in rows && RowSays(json, rows[h], log[i]))
            && (h in rows ==> Occurs(rows[h].keywords, MISSION_PACKAGE))
  {
    hide Serve, Occurs, RowSays;
    if log != [] {
      var front, a := log[..|log| - 1], log[|log| - 1];
      RowIsLatestUpload(json, front, h);
      if Stores(a, h) {
        InsertSays(json, ServeAll(json, front), a);
        SaidKeywordsMatch(json, ServeAll(json, log).rows[h], a);
        assert LatestInsert(log, |log| - 1, h);
      } else {
        OtherRowsStay(json, ServeAll(json, front), a, h);
        forall i | LatestInsert(front, i, h) ensures LatestInsert(log, i, h) {}
        forall i | LatestInsert(log, i, h)
          ensures LatestInsert(front, i, h) && h in ServeAll(json, log).rows
          ensures RowSays(json, ServeAll(json, log).rows[h], log[i])
        {
          assert LatestInsert(front, i, h);
          SaysStays(json, ServeAll(json, front).rows[h], ServeAll(json, log).rows[h], log[i]);
        }
      }
    }
  }

  lemma SaidKeywordsMatch(json: Bytes -> Bytes, row: Row, a: Action)
    requires a.Insert? && RowSays(json, row, a)
    ensures Occurs(row.keywords, MISSION_PACKAGE)
  {
    hide Occurs;
    KeywordsMatch(json(a.fileName), json(a.creator));
    KeywordsAre(json(a.fileName), json(a.creator));
  }

  lemma KeywordsAre(name: Bytes, creator: Bytes)
    ensures Keywords(name, creator) == "[" + name + "," + creator + ",\"missionpackage\"]"
  {
    assert ",\"" + MISSION_PACKAGE + "\"]" == ",\"missionpackage\"]";
  }

  lemma SaysStays(json: Bytes -> Bytes, row: Row, row': Row, a: Action)
    requires a.Insert? && RowSays(json, row, a) && row' == row.(isPrivate := row'.isPrivate)
    ensures RowSays(json, row', a)
  {
  }

  lemma ServePrivacy(json: Bytes -> Bytes, store: Store, a: Action, h: Bytes)
    ensures var rows := Serve(json, store, a).rows;
            && (h in rows <==> h in store.rows || Stores(a, h))
            && (h in rows && Marks(a, h) ==> rows[h].isPrivate == (a.body == "private"))
            && (h in rows && !Marks(a, h) ==> rows[h].isPrivate == (h in store.rows && store.rows[h].isPrivate))
    ensures !(Stores(a, h) && Marks(a, h)) && (Marks(a, h) ==> a.UpdateTool?)
  {
    hide Keywords, Overlay;
  }

  /** A row is private exactly when the last privacy update since its first upload said so; re-uploading keeps it. */
  lemma {:induction false} PrivacyIsLastUpdate(json: Bytes -> Bytes, log: seq<Action>, h: Bytes)
    ensures var rows := ServeAll(json, log).rows;
            h in rows ==> (rows[h].isPrivate <==> exists f, j :: MarkedPrivate(log, f, j, h))
    ensures h !in ServeAll(json, log).rows ==> forall i | 0 <= i < |log| :: !Stores(log[i], h)
    ensures h in ServeAll(json, log).rows ==> exists i :: 0 <= i < |log| && Stores(log[i], h)
  {
    hide Serve, Stores, Marks;
    if log != [] {
      var front, a := log[..|log| - 1], log[|log| - 1];
      PrivacyIsLastUpdate(json, front, h);
      ServePrivacy(json, ServeAll(json, front), a, h);
      if Marks(a, h) {
        if exists i :: 0 <= i < |front| && Stores(front[i], h) {
          var f :| 0 <= f < |front| && Stores(front[f], h);
          assert log[f] == front[f];
          assert a.body == "private" ==> MarkedPrivate(log, f, |log| - 1, h);
          assert forall g, j | MarkedPrivate(log, g, j, h) :: j == |log| - 1;
        }
      } else {
        forall f, j | MarkedPrivate(front, f, j, h) ensures MarkedPrivate(log, f, j, h) {}
        forall f, j | MarkedPrivate(log, f, j, h) ensures MarkedPrivate(front, f, j, h) {}
        if Stores(a, h) { assert log[|log| - 1] == a; }
        assert forall i | 0 <= i < |front| :: front[i] == log[i];
      }
    }
  }

  /** In every run the default search lists a hash exactly when its latest upload is public
      and its last privacy update since the first upload is not private. */
  lemma ListedIff(json: Bytes -> Bytes, log: seq<Action>, h: Bytes)
    ensures Listed(ServeAll(json, log), h) <==>
              (exists i :: LatestInsert(log, i, h) && log[i].tool == "public")
              && !exists f, j :: MarkedPrivate(log, f, j, h)
  {
    hide ServeAll, Occurs, LatestInsert, MarkedPrivate;
    RowIsLatestUpload(json, log, h);
    PrivacyIsLastUpdate(json, log, h);
  }

  // ---- What the log says of the file ----

  predicate Creates(a: Action, h: Bytes) { a.Create? && a.hash == h }

  /** The action writes something to the file of `h`. */
  predicate Extends(a: Action, h: Bytes) { a.Put? && a.hash == h && a.bytes != [] }

  ghost predicate LastCreate(log: seq<Action>, j: int, h: Bytes) {
    0 <= j < |log| && Creates(log[j], h) && forall k | j < k < |log| :: !Creates(log[k], h)
  }

  /** No write since action `j` reaches beyond offset `n`, and one reaches it. */
  ghost predicate Reaches(log: seq<Action>, j: int, h: Bytes, n: nat) {
    && 0 <= j
    && (forall k | j < k < |log| && Extends(log[k], h) :: log[k].at + |log[k].bytes| <= n)
    && (n == 0 || exists k :: j < k < |log| && Extends(log[k], h) && log[k].at + |log[k].bytes| == n)
  }

  lemma ReachIsUnique(log: seq<Action>, j: int, h: Bytes, n: nat, m: nat)
    requires Reaches(log, j, h, n) && Reaches(log, j, h, m)
    ensures n == m
  {
  }

  /** The file is as long as the furthest write since it was last created or truncated. */
  lemma {:induction false} LengthIsReach(json: Bytes -> Bytes, log: seq<Action>, j: int, h: Bytes)
    requires LastCreate(log, j, h)
    ensures var files := ServeAll(json, log).files; h in files && Reaches(log, j, h, |files[h]|)
    decreases |log|
  {
    hide Keywords, Overlay;
    var front, a := log[..|log| - 1], log[|log| - 1];
    if j < |log| - 1 {
      assert LastCreate(front, j, h);
      LengthIsReach(json, front, j, h);
      var n := |ServeAll(json, front).files[h]|;
      ReachNext(front, a, j, h, n);
      assert front + [a] == log;
    }
  }

  lemma ReachNext(front: seq<Action>, a: Action, j: int, h: Bytes, n: nat)
    requires 0 <= j < |front| && Reaches(front, j, h, n)
    ensures Reaches(front + [a], j, h, if Extends(a, h) && a.at + |a.bytes| > n then a.at + |a.bytes| else n)
  {
    var log := front + [a];
    assert forall k | 0 <= k < |front| :: log[k] == front[k];
    assert log[|front|] == a;
    if n > 0 && !(Extends(a, h) && a.at + |a.bytes| > n) {
      var k :| j < k < |front| && Extends(front[k], h) && front[k].at + |front[k].bytes| == n;
      assert log[k] == front[k];
    }
  }

  predicate Covers(a: Action, h: Bytes, p: int) { a.Put? && a.hash == h && a.at <= p < a.at + |a.bytes| }

  /** No later action covers position `p` than `k`, which does. */
  ghost predicate LastCover(log: seq<Action>, k: int, h: Bytes, p: int) {
    0 <= k < |log| && Covers(log[k], h, p) && forall i | k < i < |log| :: !Covers(log[i], h, p)
  }

  lemma OverlayAt(file: Bytes, at: nat, bytes: Bytes, p: nat)
    requires p < |Overlay(file, at, bytes)|
    ensures Overlay(file, at, bytes)[p]
         == if at <= p < at + |bytes| then bytes[p - at] else if p < |file| then file[p] else 0 as char
  {
  }

  lemma PutSays(json: Bytes -> Bytes, store: Store, a: Action, h: Bytes, p: nat)
    requires h in store.files && !Creates(a, h)
    ensures var files := Serve(json, store, a).files;
            && h in files && |store.files[h]| <= |files[h]|
            && (p < |files[h]| ==>
                  files[h][p] == if Covers(a, h, p) then a.bytes[p - a.at]
                                 else if p < |store.files[h]| then store.files[h][p] else 0 as char)
  {
    hide Overlay, Keywords;
    if a.Put? && a.hash == h && p < |Overlay(store.files[h], a.at, a.bytes)| {
      OverlayAt(store.files[h], a.at, a.bytes, p);
    }
  }

  /** Every stored byte is that of the last write to its position since the file was last created or truncated, of
      whichever upload, and zero where there is none. */
  lemma {:induction false} ByteIsLastWrite(json: Bytes -> Bytes, log: seq<Action>, j: int, h: Bytes, p: nat)
    requires LastCreate(log, j, h) && h in ServeAll(json, log).files && p < |ServeAll(json, log).files[h]|
    ensures var b := ServeAll(json, log).files[h][p];
            && (forall k | j < k && LastCover(log, k, h, p) :: b == log[k].bytes[p - log[k].at])
            && ((forall k | j < k < |log| :: !Covers(log[k], h, p)) ==> b == 0 as char)
    decreases |log|
  {
    hide Serve, Extends;
    var front, a := log[..|log| - 1], log[|log| - 1];
    var store := ServeAll(json, front);
    if j < |log| - 1 {
      assert LastCreate(front, j, h);
      LengthIsReach(json, front, j, h);
      PutSays(json, store, a, h, p);
      if p < |store.files[h]| {
        ByteIsLastWrite(json, front, j, h, p);
        forall k | j < k && LastCover(log, k, h, p) && k < |front| ensures LastCover(front, k, h, p) {}
      } else {
        forall k | j < k < |front| ensures !Covers(front[k], h, p) { ReachCovers(json, front, j, k, h, p); }
      }
    } else {
      NewFileIsEmpty(json, store, a);
    }
  }

  lemma NewFileIsEmpty(json: Bytes -> Bytes, store: Store, a: Action)
    requires a.Create?
    ensures Serve(json, store, a).files == store.files[a.hash := []]
  {
  }

  lemma ReachCovers(json: Bytes -> Bytes, log: seq<Action>, j: int, k: int, h: Bytes, p: nat)
    requires LastCreate(log, j, h) && j < k < |log|
    requires h in ServeAll(json, log).files && |ServeAll(json, log).files[h]| <= p
    ensures !Covers(log[k], h, p)
  {
    hide ServeAll;
    LengthIsReach(json, log, j, h);
    assert Extends(log[k], h) ==> log[k].at + |log[k].bytes| <= p;
  }

  /** The row tells the length of the stored bytes exactly when the furthest write since the file was last created
      or truncated, by whichever upload, ends where the data of the latest insert ends. */
  lemma SizeIsStoredLength(json: Bytes -> Bytes, log: seq<Action>, i: int, j: int, h: Bytes)
    requires LatestInsert(log, i, h) && LastCreate(log, j, h)
    ensures var store := ServeAll(json, log);
            && h in store.rows && h in store.files && store.rows[h].size == |log[i].data|
            && (store.rows[h].size == |store.files[h]| <==> Reaches(log, j, h, |log[i].data|))
  {
    hide ServeAll, Reaches, Occurs;
    RowIsLatestUpload(json, log, h);
    LengthIsReach(json, log, j, h);
    if Reaches(log, j, h, |log[i].data|) { ReachIsUnique(log, j, h, |log[i].data|, |ServeAll(json, log).files[h]|); }
  }

  /** The pieces written to the file of `h` since action `j`, one after the other; `None` if one did not start
      where the one before ended. */
  function Pieces(log: seq<Action>, j: int, h: Bytes): Option<Bytes>
    requires 0 <= j < |log|
    decreases |log|
  {
    if j == |log| - 1 then Some([])
    else
      var a := log[|log| - 1];
      match Pieces(log[..|log| - 1], j, h)
      case None => None
      case Some(done) =>
        if !Extends(a, h) then Some(done) else if a.at == |done| then Some(done + a.bytes) else None
  }

  lemma {:induction false} PiecesAreFile(json: Bytes -> Bytes, log: seq<Action>, j: int, h: Bytes)
    requires LastCreate(log, j, h) && Pieces(log, j, h).Some?
    ensures var files := ServeAll(json, log).files; h in files && files[h] == Pieces(log, j, h).value
    decreases |log|
  {
    hide Keywords, Overlay;
    var front, a := log[..|log| - 1], log[|log| - 1];
    if j < |log| - 1 {
      assert LastCreate(front, j, h);
      PiecesAreFile(json, front, j, h);
      if a.Put? && a.hash == h && a.bytes == [] { OverlayNothing(ServeAll(json, front).files[h], a.at); }
    }
  }

  lemma OverlayNothing(file: Bytes, at: nat)
    ensures Overlay(file, at, []) == file
  {
  }

  /** If the upload that last truncated the file also wrote all of its data, undisturbed, and inserted the latest row,
      the file holds exactly that data and the row its length. */
  lemma UndisturbedUploadIsStored(json: Bytes -> Bytes, log: seq<Action>, i: int, j: int, h: Bytes)
    requires LatestInsert(log, i, h) && LastCreate(log, j, h) && Pieces(log, j, h) == Some(log[i].data)
    ensures var store := ServeAll(json, log);
            h in store.rows && h in store.files && store.files[h] == log[i].data
            && store.rows[h].size == |store.files[h]|
  {
    hide ServeAll, Pieces, Occurs;
    RowIsLatestUpload(json, log, h);
    PiecesAreFile(json, log, j, h);
  }

  // ---- Uploads that do not overlap ----

  /** An upload, with its data in the pieces in which it is written. */
  datatype Upload = Upload(hash: Bytes, fileName: Bytes, creator: Bytes, tool: Bytes, pieces: seq<Bytes>)

  function Data(pieces: seq<Bytes>): Bytes {
    if pieces == [] then [] else Data(pieces[..|pieces| - 1]) + pieces[|pieces| - 1]
  }

  /** What an upload does, in order: create, write every piece behind the one before, insert. */
  function ActionOf(u: Upload, m: nat): Action
    requires m < |u.pieces| + 2
  {
    if m == 0 then Create(u.hash)
    else if m <= |u.pieces| then Put(u.hash, |Data(u.pieces[..m - 1])|, u.pieces[m - 1])
    else Insert(u.hash, u.fileName, u.creator, u.tool, Data(u.pieces))
  }

  function Program(u: Upload): seq<Action> {
    seq(|u.pieces| + 2, m requires 0 <= m < |u.pieces| + 2 => ActionOf(u, m))
  }

  /** The actions of upload `id` in a log whose entry `i` is made by upload `who[i]`. */
  function Own(log: seq<Action>, who: seq<nat>, id: nat): seq<Action>
    requires |who| == |log|
  {
    if log == [] then []
    else
      var n := |log| - 1;
      Own(log[..n], who[..n], id) + (if who[n] == id && !log[n].UpdateTool? then [log[n]] else [])
  }

  /** Every upload does a part of its program, from the start and in order; the uploads interleave freely. */
  ghost predicate IsRun(ups: nat -> Upload, log: seq<Action>, who: seq<nat>) {
    |who| == |log| && forall id :: Own(log, who, id) <= Program(ups(id))
  }

  predicate On(a: Action, h: Bytes) { !a.UpdateTool? && a.hash == h }

  /** Between two actions of one upload on `h` no other upload acts on `h`. */
  ghost predicate NoOverlap(log: seq<Action>, who: seq<nat>, h: Bytes)
    requires |who| == |log|
  {
    forall i, j, k | 0 <= i < j < k < |log| && On(log[i], h) && On(log[j], h) && On(log[k], h) && who[i] == who[k] ::
      who[j] == who[i]
  }

  lemma {:induction false} OwnPrefix(log: seq<Action>, who: seq<nat>, id: nat, p: nat)
    requires |who| == |log| && p <= |log|
    ensures Own(log[..p], who[..p], id) <= Own(log, who, id)
    decreases |log|
  {
    if p < |log| {
      var n := |log| - 1;
      OwnPrefix(log[..n], who[..n], id, p);
      assert log[..n][..p] == log[..p] && who[..n][..p] == who[..p];
    } else {
      assert log[..p] == log && who[..p] == who;
    }
  }

  /** The next action of an upload is the next of its program. */
  lemma NextOwn(ups: nat -> Upload, log: seq<Action>, who: seq<nat>, id: nat, p: nat)
    requires IsRun(ups, log, who) && p < |log|
    ensures var m := |Own(log[..p], who[..p], id)|;
            if who[p] == id && !log[p].UpdateTool?
            then m < |ups(id).pieces| + 2 && log[p] == ActionOf(ups(id), m)
                 && |Own(log[..p + 1], who[..p + 1], id)| == m + 1
            else |Own(log[..p + 1], who[..p + 1], id)| == m
  {
    hide ActionOf;
    OwnPrefix(log, who, id, p + 1);
    assert log[..p + 1][..p] == log[..p] && who[..p + 1][..p] == who[..p];
    var now := Own(log[..p + 1], who[..p + 1], id);
    assert now <= Program(ups(id));
    if who[p] == id && !log[p].UpdateTool? { assert now[|now| - 1] == Program(ups(id))[|now| - 1]; }
  }

  lemma {:induction false} FirstOwn(log: seq<Action>, who: seq<nat>, id: nat) returns (j: nat)
    requires |who| == |log| && Own(log, who, id) != []
    ensures j < |log| && who[j] == id && !log[j].UpdateTool? && Own(log[..j], who[..j], id) == []
    decreases |log|
  {
    var n := |log| - 1;
    if Own(log[..n], who[..n], id) == [] {
      j := n;
    } else {
      j := FirstOwn(log[..n], who[..n], id);
      assert log[..n][..j] == log[..j] && who[..n][..j] == who[..j];
    }
  }

  /** The data that an upload has written after `m` actions. */
  function Upto(u: Upload, m: nat): Bytes
    requires m > 0
  {
    if m > |u.pieces| then Data(u.pieces) else Data(u.pieces[..m - 1])
  }

  lemma UptoNext(u: Upload, m: nat)
    requires 0 < m <= |u.pieces|
    ensures Upto(u, m + 1) == Upto(u, m) + u.pieces[m - 1]
  {
    assert u.pieces[..m][..m - 1] == u.pieces[..m - 1] && u.pieces[..|u.pieces|] == u.pieces;
  }

  /** One action more: the next of the upload, or one that does not concern the hash. */
  lemma PieceStep(u: Upload, was: seq<Action>, a: Action, j: nat, m: nat, own: bool)
    requires m > 0 && LastCreate(was, j, u.hash) && Pieces(was, j, u.hash) == Some(Upto(u, m))
    requires if own then m < |u.pieces| + 2 && a == ActionOf(u, m) else !On(a, u.hash)
    ensures LastCreate(was + [a], j, u.hash)
    ensures Pieces(was + [a], j, u.hash) == Some(Upto(u, if own then m + 1 else m))
  {
    hide Data, Upto;
    var now := was + [a];
    assert now[..|now| - 1] == was && now[|now| - 1] == a;
    if own && m <= |u.pieces| {
      UptoNext(u, m);
      assert |Data(u.pieces[..m - 1])| == |Upto(u, m)| by { UptoIs(u, m); }
      assert Upto(u, m) + [] == Upto(u, m);
    } else if own {
      UptoIs(u, m + 1);
      UptoIs(u, m);
    }
  }

  lemma UptoIs(u: Upload, m: nat)
    requires m > 0
    ensures Upto(u, m) == if m > |u.pieces| then Data(u.pieces) else Data(u.pieces[..m - 1])
  {
  }

  /** While nobody else acts on the hash, the pieces written since its creation are those of the upload. */
  lemma {:induction false} PiecesSoFar(
      ups: nat -> Upload, log: seq<Action>, who: seq<nat>, id: nat, h: Bytes, j: nat, p: nat)
    requires |who| == |log| && IsRun(ups, log, who) && j < p <= |log| && ups(id).hash == h
    requires Own(log[..j], who[..j], id) == [] && who[j] == id && !log[j].UpdateTool?
    requires forall q | j < q < p && On(log[q], h) :: who[q] == id
    ensures var m := |Own(log[..p], who[..p], id)|;
            m > 0 && LastCreate(log[..p], j, h) && Pieces(log[..p], j, h) == Some(Upto(ups(id), m))
    decreases p
  {
    hide IsRun, Own, Data, Upto;
    NextOwn(ups, log, who, id, p - 1);
    var a, was := log[p - 1], log[..p - 1];
    assert log[..p] == was + [a];
    if p == j + 1 {
      assert Upto(ups(id), 1) == [] by { NothingYet(ups(id)); }
    } else {
      PiecesSoFar(ups, log, who, id, h, j, p - 1);
      var own := who[p - 1] == id && !a.UpdateTool?;
      PieceStep(ups(id), was, a, j, |Own(was, who[..p - 1], id)|, own);
    }
  }

  lemma NothingYet(u: Upload)
    ensures Upto(u, 1) == []
  {
  }

  /** If the uploads of a hash do not overlap and the last of them ran to its end, the file holds exactly its data
      and the row tells the length. */
  lemma LastUploadIsStored(
      json: Bytes -> Bytes, ups: nat -> Upload, log: seq<Action>, who: seq<nat>, k: nat, h: Bytes)
    requires |who| == |log| && IsRun(ups, log, who) && NoOverlap(log, who, h)
    requires k < |log| && Stores(log[k], h) && forall q | k < q < |log| :: !On(log[q], h)
    ensures var store, data := ServeAll(json, log), Data(ups(who[k]).pieces);
            h in store.rows && h in store.files && store.files[h] == data && store.rows[h].size == |data|
  {
    hide IsRun, Own, Data, ServeAll, Pieces, NoOverlap, Upto, LatestInsert, LastCreate;
    var id := who[k];
    var j := SpanOf(ups, log, who, k, h);
    PiecesSoFar(ups, log, who, id, h, j, |log|);
    assert log[..|log|] == log && who[..|log|] == who;
    LastInsertIsComplete(ups, log, who, k);
    UptoIs(ups(id), |Own(log, who, id)|);
    assert LatestInsert(log, k, h) by { NothingLater(log, k, h); }
    UndisturbedUploadIsStored(json, log, k, j, h);
  }

  lemma NothingLater(log: seq<Action>, k: nat, h: Bytes)
    requires k < |log| && Stores(log[k], h) && forall q | k < q < |log| :: !On(log[q], h)
    ensures LatestInsert(log, k, h)
  {
  }

  /** An upload that has inserted its row has done everything, and its data is the row's. */
  lemma LastInsertIsComplete(ups: nat -> Upload, log: seq<Action>, who: seq<nat>, k: nat)
    requires |who| == |log| && IsRun(ups, log, who) && k < |log| && log[k].Insert?
    ensures |Own(log, who, who[k])| == |ups(who[k]).pieces| + 2
    ensures log[k].data == Data(ups(who[k]).pieces) && ups(who[k]).hash == log[k].hash
  {
    hide Own, Data;
    var id := who[k];
    NextOwn(ups, log, who, id, k);
    OwnPrefix(log, who, id, k + 1);
    assert Own(log, who, id) <= Program(ups(id));
  }

  /** Where the upload that acted last on `h` began; from there on it was alone. */
  lemma SpanOf(ups: nat -> Upload, log: seq<Action>, who: seq<nat>, k: nat, h: Bytes) returns (j: nat)
    requires |who| == |log| && IsRun(ups, log, who) && NoOverlap(log, who, h)
    requires k < |log| && Stores(log[k], h) && forall q | k < q < |log| :: !On(log[q], h)
    ensures j < |log| && Own(log[..j], who[..j], who[k]) == [] && who[j] == who[k] && !log[j].UpdateTool?
    ensures ups(who[k]).hash == h && forall q | j < q < |log| && On(log[q], h) :: who[q] == who[k]
  {
    hide IsRun, Own, Data;
    var id := who[k];
    LastInsertIsComplete(ups, log, who, k);
    j := FirstOwn(log, who, id);
    NextOwn(ups, log, who, id, j);
    assert On(log[j], h) && On(log[k], h) && j <= k;
  }

  // ---- Two runs after which the row is wrong ----

  function FileSteps(h: Bytes, data: Bytes): seq<Action> { [Create(h), Put(h, 0, data)] }
  function Finish(h: Bytes, data: Bytes): Action { Insert(h, "file", "", "public", data) }

  lemma ServeSnoc(json: Bytes -> Bytes, log: seq<Action>, a: Action)
    ensures ServeAll(json, log + [a]) == Serve(json, ServeAll(json, log), a)
  {
    assert (log + [a])[..|log + [a]| - 1] == log;
  }

  /** After `FileSteps` the file holds its data. */
  lemma UploadStores(json: Bytes -> Bytes, log: seq<Action>, h: Bytes, data: Bytes)
    ensures ServeAll(json, log + FileSteps(h, data))
         == ServeAll(json, log).(files := ServeAll(json, log).files[h := data])
  {
    hide ServeAll;
    ServeSnoc(json, log, Create(h));
    ServeSnoc(json, log + [Create(h)], Put(h, 0, data));
    assert log + FileSteps(h, data) == (log + [Create(h)]) + [Put(h, 0, data)];
    assert [] + data == data;
  }

  /** Two complete uploads under one hash whose inserts cross: the row has the size of one, the file the bytes of the
      other. */
  lemma CrossedUploads(json: Bytes -> Bytes, h: Bytes, a: Bytes, b: Bytes)
    ensures var store := ServeAll(json, FileSteps(h, a) + FileSteps(h, b) + [Finish(h, b)] + [Finish(h, a)]);
            h in store.rows && h in store.files && store.rows[h].size == |a| && store.files[h] == b
  {
    hide ServeAll, FileSteps, Keywords;
    UploadStores(json, [], h, a);
    assert [] + FileSteps(h, a) == FileSteps(h, a);
    UploadStores(json, FileSteps(h, a), h, b);
    ServeSnoc(json, FileSteps(h, a) + FileSteps(h, b), Finish(h, b));
    ServeSnoc(json, FileSteps(h, a) + FileSteps(h, b) + [Finish(h, b)], Finish(h, a));
  }

  /** A second upload that truncates the file and then fails leaves the row of the first over an empty file. */
  lemma FailedUpload(json: Bytes -> Bytes, h: Bytes, a: Bytes)
    ensures var store := ServeAll(json, FileSteps(h, a) + [Finish(h, a)] + [Create(h)]);
            h in store.rows && h in store.files && store.rows[h].size == |a| && store.files[h] == []
  {
    hide ServeAll, FileSteps, Keywords;
    UploadStores(json, [], h, a);
    assert [] + FileSteps(h, a) == FileSteps(h, a);
    ServeSnoc(json, FileSteps(h, a), Finish(h, a));
    ServeSnoc(json, FileSteps(h, a) + [Finish(h, a)], Create(h));
  }
}
