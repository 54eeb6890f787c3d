/** Reconciling a fresh face detection of a photo with the faces already stored for it, and the one
    statement that writes the result. */
module FaceDetection {

  import opened Common

  type FaceId = nat

  datatype Box = Box(x1: real, y1: real, x2: real, y2: real)

  type Embedding = nat

  datatype Detection = Detection(box: Box, embedding: Embedding)

  datatype Stored = Stored(id: FaceId, box: Box, machineLearning: bool, imageWidth: real, imageHeight: real)

  // --- intersection over union ---

  function Max(a: real, b: real): real {
    if a >= b then a else b
  }

  function Min(a: real, b: real): real {
    if a <= b then a else b
  }

  function Width(b: Box): real {
    b.x2 - b.x1
  }

  function Height(b: Box): real {
    b.y2 - b.y1
  }

  function OverlapWidth(a: Box, b: Box): real {
    Max(0.0, Min(a.x2, b.x2) - Max(a.x1, b.x1))
  }

  function OverlapHeight(a: Box, b: Box): real {
    Max(0.0, Min(a.y2, b.y2) - Max(a.y1, b.y1))
  }

  function Intersection(a: Box, b: Box): real {
    OverlapWidth(a, b) * OverlapHeight(a, b)
  }

  function Area(b: Box): real {
    Width(b) * Height(b)
  }

  function Union(a: Box, b: Box): real {
    Area(a) + Area(b) - Intersection(a, b)
  }

  function Iou(a: Box, b: Box): real
    requires Union(a, b) != 0.0
  {
    Intersection(a, b) / Union(a, b)
  }

  predicate Proper(b: Box) {
    b.x1 < b.x2 && b.y1 < b.y2
  }

  lemma {:induction false} ProductBound(w: real, h: real, W: real, H: real)
    requires 0.0 <= w <= W && 0.0 <= h <= H
    ensures 0.0 <= w * h <= W * H
  {
  }

  lemma {:induction false} IntersectionBound(a: Box, b: Box)
    requires Proper(a) && Proper(b)
    ensures 0.0 <= Intersection(a, b) <= Area(a) && Intersection(a, b) <= Area(b)
    ensures Area(a) > 0.0 && Area(b) > 0.0 && Union(a, b) > 0.0
  {
    ProductBound(OverlapWidth(a, b), OverlapHeight(a, b), Width(a), Height(a));
    ProductBound(OverlapWidth(a, b), OverlapHeight(a, b), Width(b), Height(b));
    assert Width(a) * Height(a) > 0.0 && Width(b) * Height(b) > 0.0;
  }

  /** For boxes of positive area IoU is symmetric, lies in [0, 1], and is 1 exactly for equal boxes. */
  lemma {:induction false} IouLaws(a: Box, b: Box)
    requires Proper(a) && Proper(b)
    ensures Union(a, b) > 0.0 && Union(b, a) > 0.0
    ensures Iou(a, b) == Iou(b, a)
    ensures 0.0 <= Iou(a, b) <= 1.0
    ensures Iou(a, b) == 1.0 <==> a == b
  {
    IntersectionBound(a, b);
    IntersectionBound(b, a);
    assert OverlapWidth(a, b) == OverlapWidth(b, a) && OverlapHeight(a, b) == OverlapHeight(b, a);
    RatioLaws(Intersection(a, b), Union(a, b));
    FullOverlap(a, b);
  }

  lemma {:induction false} FullOverlap(a: Box, b: Box)
    requires Proper(a) && Proper(b)
    ensures Intersection(a, b) == Union(a, b) <==> a == b
  {
    IntersectionBound(a, b);
    if a == b {
      assert OverlapWidth(a, b) == Width(a) && OverlapHeight(a, b) == Height(a);
    } else if Intersection(a, b) == Union(a, b) {
      assert false;
    }
  }

  lemma {:induction false} RatioLaws(i: real, u: real)
    requires u > 0.0 && 0.0 <= i <= u
    ensures 0.0 <= i / u <= 1.0
    ensures i / u == 1.0 <==> i == u
  {
  }

  /** The test `iou > 0.5`, including what floating point makes of a zero union. */
  predicate Overlaps(a: Box, b: Box) {
    if Union(a, b) == 0.0 then Intersection(a, b) > 0.0 else Iou(a, b) > 0.5
  }

  lemma {:induction false} OverlapsSelf(a: Box)
    requires Proper(a)
    ensures Overlaps(a, a)
  {
    IouLaws(a, a);
  }

  /** More than half of what the two cover is shared. */
  lemma {:induction false} OverlapsMeans(a: Box, b: Box)
    requires Proper(a) && Proper(b)
    ensures Overlaps(a, b) <==> 2.0 * Intersection(a, b) > Union(a, b)
  {
    IntersectionBound(a, b);
    HalfOf(Intersection(a, b), Union(a, b));
  }

  lemma {:induction false} HalfOf(i: real, u: real)
    requires u > 0.0
    ensures i / u > 0.5 <==> 2.0 * i > u
  {
    var r := i / u;
    assert r * u == i;
  }

  /** Boxes side by side share nothing; of nested ones the inner part counts. */
  lemma {:induction false} IouApartAndNested(a: Box, b: Box)
    requires Proper(a) && Proper(b)
    ensures Union(a, b) > 0.0
    ensures a.x2 <= b.x1 || b.x2 <= a.x1 || a.y2 <= b.y1 || b.y2 <= a.y1 ==> Iou(a, b) == 0.0
    ensures a.x1 <= b.x1 && b.x2 <= a.x2 && a.y1 <= b.y1 && b.y2 <= a.y2 ==> Area(a) > 0.0 && Iou(a, b) == Area(b) / Area(a)
  {
    IntersectionBound(a, b);
    if a.x2 <= b.x1 || b.x2 <= a.x1 {
      assert OverlapWidth(a, b) == 0.0;
    } else if a.y2 <= b.y1 || b.y2 <= a.y1 {
      assert OverlapHeight(a, b) == 0.0;
    }
    if a.x1 <= b.x1 && b.x2 <= a.x2 && a.y1 <= b.y1 && b.y2 <= a.y2 {
      assert OverlapWidth(a, b) == Width(b) && OverlapHeight(a, b) == Height(b);
    }
  }

  /** A box moved sideways by `d` shares its width less `d` out of its width and `d`. */
  lemma {:induction false} IouShifted(b: Box, d: real)
    requires Proper(b) && 0.0 <= d <= Width(b)
    ensures var moved := Box(b.x1 + d, b.y1, b.x2 + d, b.y2);
            Union(b, moved) > 0.0 && Iou(b, moved) == (Width(b) - d) / (Width(b) + d)
  {
    var moved := Box(b.x1 + d, b.y1, b.x2 + d, b.y2);
    IntersectionBound(b, moved);
    var w, h := Width(b), Height(b);
    assert Intersection(b, moved) == (w - d) * h;
    assert Union(b, moved) == w * h + w * h - (w - d) * h == (w + d) * h;
    Cancel(w - d, w + d, h);
  }

  lemma {:induction false} Cancel(a: real, b: real, h: real)
    requires b > 0.0 && h > 0.0
    ensures b * h > 0.0 && (a * h) / (b * h) == a / b
  {
    assert (a / b) * b == a;
    assert (a / b) * (b * h) == ((a / b) * b) * h == a * h;
  }

  // --- reconciliation ---

  /** A detection run over a photo: the faces stored for it, what was found, and the image size. */
  datatype Scan = Scan(existing: seq<Stored>, detections: seq<Detection>, width: real, height: real)

  function ScaleBy(stored: real, now: real): real {
    if stored == 0.0 then now else now / stored
  }

  /** A detected box in the coordinates of the stored faces. */
  function Scaled(s: Scan, b: Box): Box {
    var sx := if s.existing == [] then s.width else ScaleBy(s.existing[0].imageWidth, s.width);
    var sy := if s.existing == [] then s.height else ScaleBy(s.existing[0].imageHeight, s.height);
    Box(b.x1 * sx, b.y1 * sy, b.x2 * sx, b.y2 * sy)
  }

  /** The first stored face that overlaps the box. */
  function Pick(existing: seq<Stored>, b: Box): Option<FaceId> {
    if existing == [] then None
    else if Overlaps(existing[0].box, b) then Some(existing[0].id)
    else Pick(existing[1..], b)
  }

  /** It is the first in stored order, and there is none exactly if no stored face overlaps. */
  lemma {:induction false} PickMeans(existing: seq<Stored>, b: Box)
    ensures Pick(existing, b) == None ==> forall i :: 0 <= i < |existing| ==> !Overlaps(existing[i].box, b)
    ensures Pick(existing, b).Some? ==>
              exists i :: 0 <= i < |existing| && Pick(existing, b) == Some(existing[i].id) && Overlaps(existing[i].box, b)
                          && forall j :: 0 <= j < i ==> !Overlaps(existing[j].box, b)
  {
    if existing != [] && !Overlaps(existing[0].box, b) {
      var rest := existing[1..];
      PickMeans(rest, b);
      assert forall i :: 0 <= i < |rest| ==> rest[i] == existing[i + 1];
      if Pick(rest, b).Some? {
        var i :| 0 <= i < |rest| && Pick(rest, b) == Some(rest[i].id) && Overlaps(rest[i].box, b)
                 && forall j :: 0 <= j < i ==> !Overlaps(rest[j].box, b);
        assert existing[i + 1] == rest[i];
        forall j | 0 <= j < i + 1 ensures !Overlaps(existing[j].box, b) {
          assert j > 0 ==> existing[j] == rest[j - 1];
        }
      }
    }
  }

  // --- a photo of another size ---

  /** A stored box as it appears on an image of the new size. */
  function Seen(s: Scan, b: Box): Box
    requires s.existing != [] && s.existing[0].imageWidth > 0.0 && s.existing[0].imageHeight > 0.0
  {
    var kx, ky := s.width / s.existing[0].imageWidth, s.height / s.existing[0].imageHeight;
    Box(b.x1 * kx, b.y1 * ky, b.x2 * kx, b.y2 * ky)
  }

  /** The scaling is meant to bring a detected box into the coordinates of the stored ones. It does so
      exactly if the image size has not changed: otherwise it scales the wrong way. */
  lemma {:induction false} ScalesExactly(s: Scan, b: Box)
    requires s.existing != [] && s.existing[0].imageWidth > 0.0 && s.existing[0].imageHeight > 0.0
    requires s.width > 0.0 && s.height > 0.0 && Proper(b)
    ensures Scaled(s, Seen(s, b)) == b <==> s.width == s.existing[0].imageWidth && s.height == s.existing[0].imageHeight
  {
    var W, H := s.existing[0].imageWidth, s.existing[0].imageHeight;
    var kx, ky := s.width / W, s.height / H;
    assert kx * W == s.width && ky * H == s.height;
  }

  /** So a photo detected again at twice the size can lose a face it still shows: the stored one is
      removed, with its person, and a new one added in its place. */
  lemma {:induction false} ResizedPhotoLosesItsFace(f: Stored, embedding: Embedding) returns (s: Scan)
    requires f.machineLearning && Proper(f.box) && f.imageWidth > 0.0 && f.imageHeight > 0.0 && f.box.x2 <= 4.0 * f.box.x1
    ensures s.existing == [f] && s.width == 2.0 * f.imageWidth && s.height == 2.0 * f.imageHeight
    ensures s.detections == [Detection(Seen(s, f.box), embedding)]
    ensures Adds(s, 0) && Unpicked(s) == {f.id} && Clean(s, {f.id})
  {
    var b := f.box;
    var double := Box(b.x1 * 2.0, b.y1 * 2.0, b.x2 * 2.0, b.y2 * 2.0);
    s := Scan([f], [Detection(double, embedding)], 2.0 * f.imageWidth, 2.0 * f.imageHeight);
    assert Seen(s, b) == double;
    var quadruple := Box(b.x1 * 2.0 * 2.0, b.y1 * 2.0 * 2.0, b.x2 * 2.0 * 2.0, b.y2 * 2.0 * 2.0);
    assert Scaled(s, double) == quadruple;
    IntersectionBound(b, quadruple);
    IouApartAndNested(b, quadruple);
    MissedAlone(s, f, quadruple);
  }

  lemma {:induction false} MissedAlone(s: Scan, f: Stored, seen: Box)
    requires s.existing == [f] && f.machineLearning && |s.detections| == 1
    requires Scaled(s, s.detections[0].box) == seen && !Overlaps(f.box, seen)
    ensures Adds(s, 0) && Unpicked(s) == {f.id} && Clean(s, {f.id})
  {
    assert Pick(s.existing[1..], seen) == None;
    assert f in s.existing;
  }

  function MachineIds(existing: seq<Stored>): set<FaceId> {
    set f | f in existing && f.machineLearning :: f.id
  }

  function PickOf(s: Scan, k: int): Option<FaceId> {
    if 0 <= k < |s.detections| then Pick(s.existing, Scaled(s, s.detections[k].box)) else None
  }

  ghost predicate Picked(s: Scan, n: nat, id: FaceId) {
    exists k :: 0 <= k < n && PickOf(s, k) == Some(id)
  }

  /** The machine-learning faces no detection picks. */
  ghost function Unpicked(s: Scan): set<FaceId> {
    set id | id in MachineIds(s.existing) && !Picked(s, |s.detections|, id)
  }

  /** Detection `k` finds a new face. */
  predicate Adds(s: Scan, k: int) {
    0 <= k < |s.detections| && PickOf(s, k) == None
  }

  /** Detection `k` picks a face that is not a machine-learning one or was picked before: the code then
      writes an embedding for it again. */
  ghost predicate Rewrites(s: Scan, k: int) {
    && PickOf(s, k).Some?
    && (PickOf(s, k).value !in MachineIds(s.existing) || Picked(s, k, PickOf(s, k).value))
  }

  // --- what the loop hands to the refresh ---

  datatype Row = Row(face: FaceId, embedding: Embedding)

  function NewFace(s: Scan, uuids: seq<FaceId>, k: nat): Stored
    requires k < |s.detections| == |uuids|
  {
    Stored(uuids[k], s.detections[k].box, true, s.width, s.height)
  }

  function FacesToAdd(s: Scan, uuids: seq<FaceId>, n: nat): seq<Stored>
    requires n <= |s.detections| == |uuids|
  {
    if n == 0 then [] else FacesToAdd(s, uuids, n - 1) + if Adds(s, n - 1) then [NewFace(s, uuids, n - 1)] else []
  }

  /** The face detection `k` writes an embedding for, if it writes one. */
  ghost function KeyOf(s: Scan, uuids: seq<FaceId>, k: int): Option<FaceId>
    requires |s.detections| == |uuids|
  {
    if Adds(s, k) then Some(uuids[k]) else if Rewrites(s, k) then PickOf(s, k) else None
  }

  ghost function EmbeddingRows(s: Scan, uuids: seq<FaceId>, n: nat): seq<Row>
    requires n <= |s.detections| == |uuids|
  {
    if n == 0 then []
    else
      EmbeddingRows(s, uuids, n - 1) +
      if KeyOf(s, uuids, n - 1).Some? then [Row(KeyOf(s, uuids, n - 1).value, s.detections[n - 1].embedding)] else []
  }

  /** The reconciliation loop of `handleDetectFaces`. */
  method Reconcile(s: Scan, uuids: seq<FaceId>) returns (added: seq<Stored>, removed: set<FaceId>, rows: seq<Row>)
    requires |s.detections| == |uuids|
    ensures added == FacesToAdd(s, uuids, |s.detections|)
    ensures rows == EmbeddingRows(s, uuids, |s.detections|)
    ensures removed == Unpicked(s)
  {
    var mlFaceIds := MachineIds(s.existing);
    added, rows := [], [];
    for k := 0 to |s.detections|
      invariant forall id :: id in mlFaceIds <==> id in MachineIds(s.existing) && !Picked(s, k, id)
      invariant added == FacesToAdd(s, uuids, k) && rows == EmbeddingRows(s, uuids, k)
    {
      var found := PickOf(s, k);
      if found.Some? {
        if found.value in mlFaceIds {
          mlFaceIds := mlFaceIds - {found.value};
        } else {
          rows := rows + [Row(found.value, s.detections[k].embedding)];
        }
      } else {
        added := added + [NewFace(s, uuids, k)];
        rows := rows + [Row(uuids[k], s.detections[k].embedding)];
      }
    }
    removed := mlFaceIds;
  }

  // --- the refresh statement ---

  ghost predicate DistinctKeys(rows: seq<Row>) {
    forall i, j :: 0 <= i < j < |rows| ==> rows[i].face != rows[j].face
  }

  /** The insert meets the primary key: no row for a face that has one, no two for the same face. */
  ghost predicate KeysFree(keyed: set<FaceId>, rows: seq<Row>) {
    (forall r :: r in rows ==> r.face !in keyed) && DistinctKeys(rows)
  }

  function Inserted(embeddings: map<FaceId, Embedding>, rows: seq<Row>): map<FaceId, Embedding> {
    if rows == [] then embeddings
    else
      var last := rows[|rows| - 1];
      Inserted(embeddings, rows[..|rows| - 1])[last.face := last.embedding]
  }

  function Kept(faces: seq<Stored>, removed: set<FaceId>): seq<Stored> {
    if faces == [] then []
    else Kept(faces[..|faces| - 1], removed) + if faces[|faces| - 1].id in removed then [] else [faces[|faces| - 1]]
  }

  /** The face and embedding rows of one photo. */
  class FaceRepository {
    var faces: seq<Stored>
    var embeddings: map<FaceId, Embedding>
    // the mark that detection ran, with the number of faces found
    var facesDetected: Option<nat>

    constructor ()
      ensures faces == [] && embeddings == map[] && facesDetected == None
    {
      faces, embeddings, facesDetected := [], map[], None;
    }

    /** `refreshFaces`: one statement, so either all of it happens or, on a key conflict, none. */
    method RefreshFaces(added: seq<Stored>, removed: set<FaceId>, rows: seq<Row>) returns (ok: bool)
      modifies this`faces, this`embeddings
      ensures ok <==> KeysFree(old(embeddings).Keys, rows)
      ensures ok ==> faces == Kept(old(faces), removed) + added && embeddings == Inserted(old(embeddings), rows) - removed
      ensures !ok ==> faces == old(faces) && embeddings == old(embeddings)
    {
      var next := embeddings;
      for i := 0 to |rows|
        invariant KeysFree(embeddings.Keys, rows[..i]) && next == Inserted(embeddings, rows[..i])
        invariant faces == old(faces) && embeddings == old(embeddings)
      {
        InsertedKeys(embeddings, rows[..i]);
        assert rows[..i + 1] == rows[..i] + [rows[i]] && rows[..i + 1][..i] == rows[..i];
        if rows[i].face in next {
          KeyTaken(embeddings.Keys, rows, i);
          return false;
        }
        next := next[rows[i].face := rows[i].embedding];
      }
      assert rows[..|rows|] == rows;
      embeddings := next - removed;
      faces := Kept(faces, removed) + added;
      ok := true;
    }

    /** `handleDetectFaces` once the model has answered. It goes through exactly when the scan is clean;
        then a stored machine-learning face is gone exactly when no detection picks it, every unpicked
        detection is a new face, and the photo is marked. Otherwise the job fails: nothing is added,
        removed or marked. */
    method HandleDetectFaces(detections: seq<Detection>, width: real, height: real, uuids: seq<FaceId>) returns (ok: bool)
      requires |detections| == |uuids| && NewIds(uuids, faces, embeddings.Keys)
      modifies this
      ensures var s := Scan(old(faces), detections, width, height);
              && (ok <==> Clean(s, old(embeddings).Keys))
              && (ok ==> RefreshDone(s, uuids, old(embeddings), faces, embeddings))
              && (Repeats(s) ==> ok)
      ensures facesDetected == if ok then Some(|detections|) else old(facesDetected)
      ensures !ok ==> faces == old(faces) && embeddings == old(embeddings)
    {
      var s := Scan(faces, detections, width, height);
      var added, removed, rows := Reconcile(s, uuids);
      PlanDone(s, uuids, embeddings, removed);
      ok := true;
      if added != [] || removed != {} || rows != [] {
        ok := RefreshFaces(added, removed, rows);
      } else {
        KeptAll(faces);
        assert embeddings - removed == embeddings && faces + added == faces;
      }
      if ok {
        facesDetected := Some(|detections|);
      }
    }
  }

  /** What a refresh that goes through leaves. A photo detected again with the same boxes is left alone. */
  ghost predicate RefreshDone(s: Scan, uuids: seq<FaceId>, before: map<FaceId, Embedding>,
                              faces: seq<Stored>, embeddings: map<FaceId, Embedding>)
    requires |s.detections| == |uuids|
  {
    && Refreshed(s, uuids, faces) && EmbeddingsRefreshed(s, uuids, before, embeddings)
    && faces == Kept(s.existing, Unpicked(s)) + FacesToAdd(s, uuids, |uuids|)
    && (Repeats(s) ==> faces == s.existing && embeddings == before)
  }

  lemma {:induction false} PlanDone(s: Scan, uuids: seq<FaceId>, before: map<FaceId, Embedding>, removed: set<FaceId>)
    requires |s.detections| == |uuids| && NewIds(uuids, s.existing, before.Keys) && removed == Unpicked(s)
    ensures var added, rows := FacesToAdd(s, uuids, |uuids|), EmbeddingRows(s, uuids, |uuids|);
            && (KeysFree(before.Keys, rows) <==> Clean(s, before.Keys))
            && (Clean(s, before.Keys) ==> RefreshDone(s, uuids, before, Kept(s.existing, removed) + added, Inserted(before, rows) - removed))
            && (rows == [] || Repeats(s) ==> Clean(s, before.Keys))
  {
    PlanMeans(s, uuids, before, removed);
    var added, rows := FacesToAdd(s, uuids, |uuids|), EmbeddingRows(s, uuids, |uuids|);
    if Repeats(s) {
      NothingChanges(s.existing, before);
    }
  }

  lemma {:induction false} NothingChanges(faces: seq<Stored>, before: map<FaceId, Embedding>)
    ensures Kept(faces, {}) + [] == faces && Inserted(before, []) - {} == before
  {
    KeptAll(faces);
  }

  lemma {:induction false} InsertedKeys(embeddings: map<FaceId, Embedding>, rows: seq<Row>)
    ensures forall id :: id in Inserted(embeddings, rows) <==> id in embeddings || exists r :: r in rows && r.face == id
  {
    if rows != [] {
      InsertedKeys(embeddings, rows[..|rows| - 1]);
      assert rows == rows[..|rows| - 1] + [rows[|rows| - 1]];
    }
  }

  lemma {:induction false} KeyTaken(keyed: set<FaceId>, rows: seq<Row>, i: nat)
    requires i < |rows| && (rows[i].face in keyed || exists r :: r in rows[..i] && r.face == rows[i].face)
    ensures !KeysFree(keyed, rows)
  {
  }

  // --- when the refresh goes through ---

  /** New random ids: distinct, and not those of stored faces. */
  ghost predicate NewIds(uuids: seq<FaceId>, faces: seq<Stored>, keyed: set<FaceId>) {
    && (forall i, j :: 0 <= i < j < |uuids| ==> uuids[i] != uuids[j])
    && (forall i :: 0 <= i < |uuids| ==> uuids[i] !in keyed && forall f :: f in faces ==> f.id != uuids[i])
  }

  /** No rewriting detection picks a face that has an embedding, and no two of them pick the same face. */
  ghost predicate Clean(s: Scan, keyed: set<FaceId>) {
    CleanUpTo(s, keyed, |s.detections|)
  }

  ghost predicate CleanUpTo(s: Scan, keyed: set<FaceId>, n: nat) {
    && (forall k :: 0 <= k < n && Rewrites(s, k) ==> PickOf(s, k).value !in keyed)
    && (forall j, k :: 0 <= j < k < n && Rewrites(s, j) && Rewrites(s, k) ==> PickOf(s, j) != PickOf(s, k))
  }

  lemma {:induction false} PickIsStored(existing: seq<Stored>, b: Box)
    ensures Pick(existing, b).Some? ==> exists f :: f in existing && f.id == Pick(existing, b).value
  {
    if existing != [] && !Overlaps(existing[0].box, b) {
      PickIsStored(existing[1..], b);
    }
  }

  lemma {:induction false} RowsMean(s: Scan, uuids: seq<FaceId>, n: nat)
    requires n <= |s.detections| == |uuids|
    ensures forall r :: r in EmbeddingRows(s, uuids, n) <==>
              exists k :: 0 <= k < n && KeyOf(s, uuids, k) == Some(r.face) && r.embedding == s.detections[k].embedding
  {
    if n > 0 {
      RowsMean(s, uuids, n - 1);
    }
  }

  /** Different detections write different keys, unless both rewrite the same face. */
  lemma {:induction false} KeysDiffer(s: Scan, uuids: seq<FaceId>, keyed: set<FaceId>, j: nat, k: nat)
    requires |s.detections| == |uuids| && NewIds(uuids, s.existing, keyed) && j < k < |uuids|
    requires KeyOf(s, uuids, j).Some? && KeyOf(s, uuids, j) == KeyOf(s, uuids, k)
    ensures Rewrites(s, j) && Rewrites(s, k) && PickOf(s, j) == PickOf(s, k)
  {
    PickIsStored(s.existing, Scaled(s, s.detections[j].box));
    PickIsStored(s.existing, Scaled(s, s.detections[k].box));
  }

  /** The key check of the insert, said of the scan. */
  lemma {:induction false} RowsClean(s: Scan, uuids: seq<FaceId>, keyed: set<FaceId>, n: nat)
    requires n <= |s.detections| == |uuids| && NewIds(uuids, s.existing, keyed)
    ensures KeysFree(keyed, EmbeddingRows(s, uuids, n)) <==> CleanUpTo(s, keyed, n)
  {
    if n > 0 {
      RowsClean(s, uuids, keyed, n - 1);
      RowClean(s, uuids, keyed, n - 1);
    }
  }

  lemma {:induction false} RowClean(s: Scan, uuids: seq<FaceId>, keyed: set<FaceId>, k: nat)
    requires k < |s.detections| == |uuids| && NewIds(uuids, s.existing, keyed)
    requires KeysFree(keyed, EmbeddingRows(s, uuids, k)) <==> CleanUpTo(s, keyed, k)
    ensures KeysFree(keyed, EmbeddingRows(s, uuids, k + 1)) <==> CleanUpTo(s, keyed, k + 1)
  {
    var rows, rows' := EmbeddingRows(s, uuids, k), EmbeddingRows(s, uuids, k + 1);
    var key := KeyOf(s, uuids, k);
    if key.Some? {
      var last := Row(key.value, s.detections[k].embedding);
      assert rows' == rows + [last];
      KeysGrow(keyed, rows, last);
      RowsMean(s, uuids, k);
      if r :| r in rows && r.face == last.face {
        var j :| 0 <= j < k && KeyOf(s, uuids, j) == Some(r.face) && r.embedding == s.detections[j].embedding;
        KeysDiffer(s, uuids, keyed, j, k);
      } else {
        forall j | 0 <= j < k && Rewrites(s, j) && Rewrites(s, k) ensures PickOf(s, j) != PickOf(s, k) {
          assert KeyOf(s, uuids, j) == PickOf(s, j);
          assert Row(PickOf(s, j).value, s.detections[j].embedding) in rows;
        }
      }
    } else {
      assert rows' == rows;
    }
  }

  lemma {:induction false} KeysGrow(keyed: set<FaceId>, rows: seq<Row>, last: Row)
    ensures KeysFree(keyed, rows + [last]) <==>
              KeysFree(keyed, rows) && last.face !in keyed && forall r :: r in rows ==> r.face != last.face
  {
    var rows' := rows + [last];
    assert rows'[|rows|] == last;
    assert forall r :: r in rows' <==> r in rows || r == last;
    if KeysFree(keyed, rows') {
      assert forall i :: 0 <= i < |rows| ==> rows'[i] == rows[i];
      forall r | r in rows ensures r.face != last.face {
        var i :| 0 <= i < |rows| && rows[i] == r;
      }
    }
  }

  /** As the code stores them, all faces are machine-learning ones with an embedding. Then the refresh goes
      through exactly when no two detections pick the same face. */
  lemma {:induction false} RefusedExactly(s: Scan, keyed: set<FaceId>)
    requires forall f :: f in s.existing ==> f.machineLearning && f.id in keyed
    ensures Clean(s, keyed) <==>
              forall j, k :: 0 <= j < k < |s.detections| && PickOf(s, j).Some? ==> PickOf(s, j) != PickOf(s, k)
  {
    forall k | 0 <= k < |s.detections| && PickOf(s, k).Some?
      ensures PickOf(s, k).value in keyed && PickOf(s, k).value in MachineIds(s.existing)
    {
      PickIsStored(s.existing, Scaled(s, s.detections[k].box));
    }
    if j, k :| 0 <= j < k < |s.detections| && PickOf(s, j).Some? && PickOf(s, j) == PickOf(s, k) {
      assert Picked(s, k, PickOf(s, k).value);
      assert Rewrites(s, k);
    }
  }

  lemma {:induction false} PicksFirst(s: Scan, k: nat)
    requires k < |s.detections| && s.existing != [] && Overlaps(s.existing[0].box, Scaled(s, s.detections[k].box))
    ensures PickOf(s, k) == Some(s.existing[0].id)
  {
  }

  /** So the code does not always do what the loop asks for: whenever two detections overlap one stored
      face, another stored face that nothing picks any more stays. */
  lemma {:induction false} CrowdedFaceBlocksTheRefresh(a: Box, a': Box, b: Box, size: real) returns (s: Scan, keyed: set<FaceId>, gone: FaceId)
    requires Proper(a) && Overlaps(a, a') && size > 0.0
    ensures s.existing == [Stored(0, a, true, size, size), Stored(1, b, true, size, size)] && keyed == {0, 1} && gone == 1
    ensures s.detections == [Detection(a, 7), Detection(a', 8)]
    ensures !Clean(s, keyed) && gone in Unpicked(s)
  {
    var face, other := Stored(0, a, true, size, size), Stored(1, b, true, size, size);
    s, keyed, gone := Scan([face, other], [Detection(a, 7), Detection(a', 8)], size, size), {0, 1}, 1;
    SameSizeUnscaled(s, a);
    SameSizeUnscaled(s, a');
    OverlapsSelf(a);
    PicksFirst(s, 0);
    PicksFirst(s, 1);
    assert other in s.existing;
  }

  // --- what a refresh that goes through leaves ---

  /** Kept: every stored face but the machine-learning ones no detection picks. New: one per unpicked detection. */
  ghost predicate Refreshed(s: Scan, uuids: seq<FaceId>, faces: seq<Stored>)
    requires |s.detections| == |uuids|
  {
    forall f :: f in faces <==>
      || (f in s.existing && (f.id in MachineIds(s.existing) ==> Picked(s, |s.detections|, f.id)))
      || (exists k :: Adds(s, k) && f == NewFace(s, uuids, k))
  }

  /** Embeddings go with the removed faces; each detection that writes one leaves its own; the rest stay. */
  ghost predicate EmbeddingsRefreshed(s: Scan, uuids: seq<FaceId>, before: map<FaceId, Embedding>, after: map<FaceId, Embedding>)
    requires |s.detections| == |uuids|
  {
    && (forall k :: 0 <= k < |uuids| && KeyOf(s, uuids, k).Some? ==>
          KeyOf(s, uuids, k).value in after && after[KeyOf(s, uuids, k).value] == s.detections[k].embedding)
    && (forall id :: id in after && (forall k :: 0 <= k < |uuids| ==> KeyOf(s, uuids, k) != Some(id)) ==>
          id in before && after[id] == before[id])
    && (forall id :: id in before && (id in MachineIds(s.existing) ==> Picked(s, |s.detections|, id)) ==> id in after)
    && (forall id :: id in after && id in MachineIds(s.existing) ==> Picked(s, |s.detections|, id))
  }

  lemma {:induction false} AddedMean(s: Scan, uuids: seq<FaceId>, n: nat)
    requires n <= |s.detections| == |uuids|
    ensures forall f :: f in FacesToAdd(s, uuids, n) <==> exists k :: 0 <= k < n && Adds(s, k) && f == NewFace(s, uuids, k)
  {
    if n > 0 {
      AddedMean(s, uuids, n - 1);
    }
  }

  lemma {:induction false} KeptMeans(faces: seq<Stored>, removed: set<FaceId>)
    ensures forall f :: f in Kept(faces, removed) <==> f in faces && f.id !in removed
  {
    if faces != [] {
      KeptMeans(faces[..|faces| - 1], removed);
      assert faces == faces[..|faces| - 1] + [faces[|faces| - 1]];
    }
  }

  lemma {:induction false} KeptAll(faces: seq<Stored>)
    ensures Kept(faces, {}) == faces
  {
    if faces != [] {
      KeptAll(faces[..|faces| - 1]);
    }
  }

  lemma {:induction false} InsertedMeans(s: Scan, uuids: seq<FaceId>, before: map<FaceId, Embedding>, n: nat)
    requires n <= |s.detections| == |uuids| && NewIds(uuids, s.existing, before.Keys) && CleanUpTo(s, before.Keys, n)
    ensures var after := Inserted(before, EmbeddingRows(s, uuids, n));
            && before.Keys <= after.Keys
            && (forall k :: 0 <= k < n && KeyOf(s, uuids, k).Some? ==>
                  KeyOf(s, uuids, k).value in after && after[KeyOf(s, uuids, k).value] == s.detections[k].embedding)
            && (forall id :: id in after && (forall k :: 0 <= k < n ==> KeyOf(s, uuids, k) != Some(id)) ==>
                  id in before && after[id] == before[id])
  {
    if n > 0 {
      InsertedMeans(s, uuids, before, n - 1);
      var rows, key := EmbeddingRows(s, uuids, n - 1), KeyOf(s, uuids, n - 1);
      if key.Some? {
        var last := Row(key.value, s.detections[n - 1].embedding);
        assert EmbeddingRows(s, uuids, n) == rows + [last] && (rows + [last])[..|rows|] == rows;
        forall k | 0 <= k < n - 1 && KeyOf(s, uuids, k).Some? ensures KeyOf(s, uuids, k) != key {
          if KeyOf(s, uuids, k) == key {
            KeysDiffer(s, uuids, before.Keys, k, n - 1);
          }
        }
      } else {
        assert EmbeddingRows(s, uuids, n) == rows;
      }
    }
  }

  lemma {:induction false} RowsRecorded(s: Scan, uuids: seq<FaceId>, before: map<FaceId, Embedding>, removed: set<FaceId>)
    requires |s.detections| == |uuids| && NewIds(uuids, s.existing, before.Keys) && Clean(s, before.Keys)
    requires removed == Unpicked(s)
    ensures EmbeddingsRefreshed(s, uuids, before, Inserted(before, EmbeddingRows(s, uuids, |uuids|)) - removed)
  {
    InsertedMeans(s, uuids, before, |uuids|);
    forall k | 0 <= k < |uuids| && KeyOf(s, uuids, k).Some? ensures KeyOf(s, uuids, k).value !in removed {
      if !Adds(s, k) {
        assert PickOf(s, k) == KeyOf(s, uuids, k);
      }
    }
  }

  /** The plan of the loop, carried out: what it leaves, and when it can be. */
  lemma {:induction false} PlanMeans(s: Scan, uuids: seq<FaceId>, before: map<FaceId, Embedding>, removed: set<FaceId>)
    requires |s.detections| == |uuids| && NewIds(uuids, s.existing, before.Keys)
    requires removed == Unpicked(s)
    ensures var added, rows := FacesToAdd(s, uuids, |uuids|), EmbeddingRows(s, uuids, |uuids|);
            && (KeysFree(before.Keys, rows) <==> Clean(s, before.Keys))
            && Refreshed(s, uuids, Kept(s.existing, removed) + added)
            && (Clean(s, before.Keys) ==> EmbeddingsRefreshed(s, uuids, before, Inserted(before, rows) - removed))
            && (Repeats(s) ==> added == [] && rows == [] && removed == {})
  {
    RowsClean(s, uuids, before.Keys, |uuids|);
    FacesLeft(s, uuids, removed);
    if Clean(s, before.Keys) {
      RowsRecorded(s, uuids, before, removed);
    }
    if Repeats(s) {
      NothingToDo(s, uuids, |uuids|);
    }
  }

  lemma {:induction false} FacesLeft(s: Scan, uuids: seq<FaceId>, removed: set<FaceId>)
    requires |s.detections| == |uuids|
    requires removed == Unpicked(s)
    ensures Refreshed(s, uuids, Kept(s.existing, removed) + FacesToAdd(s, uuids, |uuids|))
  {
    AddedMean(s, uuids, |uuids|);
    KeptMeans(s.existing, removed);
  }

  // --- running detection again ---

  /** The stored faces are the machine-learning faces of an earlier run over the same image, kept in
      any order, with distinct ids and boxes that do not overlap. */
  ghost predicate StoredRun(s: Scan) {
    && s.width > 0.0 && s.height > 0.0
    && (forall f :: f in s.existing ==>
          f.machineLearning && Proper(f.box) && f.imageWidth == s.width && f.imageHeight == s.height)
    && (forall i, j :: 0 <= i < j < |s.existing| ==> s.existing[i].id != s.existing[j].id)
    && (forall i, j :: 0 <= i < |s.existing| && 0 <= j < |s.existing| && i != j ==>
          !Overlaps(s.existing[i].box, s.existing[j].box))
  }

  predicate Same(s: Scan, i: int, k: int) {
    0 <= i < |s.existing| && 0 <= k < |s.detections| && s.existing[i].box == s.detections[k].box
  }

  ghost predicate Detected(s: Scan, i: int) {
    exists k :: Same(s, i, k)
  }

  ghost predicate Known(s: Scan, k: int) {
    exists i :: Same(s, i, k)
  }

  /** The same boxes are detected again: each stored box once, in any order. */
  ghost predicate SameBoxes(s: Scan) {
    && (forall k :: 0 <= k < |s.detections| ==> Known(s, k))
    && (forall i :: 0 <= i < |s.existing| ==> Detected(s, i))
    && (forall j, k :: 0 <= j < k < |s.detections| ==> s.detections[j].box != s.detections[k].box)
  }

  ghost predicate Repeats(s: Scan) {
    StoredRun(s) && SameBoxes(s)
  }

  lemma {:induction false} PicksItself(existing: seq<Stored>, b: Box, i: nat)
    requires i < |existing| && existing[i].box == b && Proper(b)
    requires forall j :: 0 <= j < |existing| && j != i ==> !Overlaps(existing[j].box, b)
    ensures Pick(existing, b) == Some(existing[i].id)
  {
    if i == 0 {
      OverlapsSelf(b);
    } else {
      assert forall j :: 0 <= j < |existing[1..]| ==> existing[1..][j] == existing[j + 1];
      PicksItself(existing[1..], b, i - 1);
    }
  }

  lemma {:induction false} SameSizeUnscaled(s: Scan, b: Box)
    requires s.existing != [] && s.width > 0.0 && s.height > 0.0
    requires s.existing[0].imageWidth == s.width && s.existing[0].imageHeight == s.height
    ensures Scaled(s, b) == b
  {
  }

  lemma {:induction false} RunPicks(s: Scan, i: nat, k: nat)
    requires StoredRun(s) && Same(s, i, k)
    ensures PickOf(s, k) == Some(s.existing[i].id)
  {
    assert s.existing[0] in s.existing && s.existing[i] in s.existing;
    SameSizeUnscaled(s, s.detections[k].box);
    PicksItself(s.existing, s.detections[k].box, i);
  }

  /** Detecting the same boxes on the same image again adds, rewrites and removes nothing. */
  lemma {:induction false} DetectionIsIdempotent(s: Scan)
    requires Repeats(s)
    ensures forall k :: 0 <= k < |s.detections| ==> !Adds(s, k) && !Rewrites(s, k)
    ensures forall id :: id in MachineIds(s.existing) ==> Picked(s, |s.detections|, id)
  {
    forall k | 0 <= k < |s.detections| ensures !Adds(s, k) && !Rewrites(s, k) {
      PicksAfresh(s, k);
    }
    forall id | id in MachineIds(s.existing) ensures Picked(s, |s.detections|, id) {
      var f :| f in s.existing && f.machineLearning && f.id == id;
      var i :| 0 <= i < |s.existing| && s.existing[i] == f;
      assert Detected(s, i);
      var k :| Same(s, i, k);
      RunPicks(s, i, k);
    }
  }

  lemma {:induction false} PicksAfresh(s: Scan, k: nat)
    requires Repeats(s) && k < |s.detections|
    ensures !Adds(s, k) && !Rewrites(s, k)
  {
    assert Known(s, k);
    var i :| Same(s, i, k);
    RunPicks(s, i, k);
    assert s.existing[i] in s.existing;
    forall j | 0 <= j < k ensures PickOf(s, j) != PickOf(s, k) {
      assert Known(s, j);
      var i' :| Same(s, i', j);
      RunPicks(s, i', j);
      assert s.existing[i].box != s.existing[i'].box;
    }
  }

  lemma {:induction false} NothingToDo(s: Scan, uuids: seq<FaceId>, n: nat)
    requires Repeats(s) && n <= |s.detections| == |uuids|
    ensures FacesToAdd(s, uuids, n) == [] && EmbeddingRows(s, uuids, n) == []
    ensures forall id :: id in MachineIds(s.existing) ==> Picked(s, |s.detections|, id)
  {
    DetectionIsIdempotent(s);
    if n > 0 {
      NothingToDo(s, uuids, n - 1);
    }
  }

  // --- a photo detected twice ---

  /** Detections of one image whose boxes do not overlap. */
  ghost predicate Spread(detections: seq<Detection>) {
    && (forall k :: 0 <= k < |detections| ==> Proper(detections[k].box))
    && (forall j, k :: 0 <= j < |detections| && 0 <= k < |detections| && j != k ==>
          !Overlaps(detections[j].box, detections[k].box))
  }

  lemma {:induction false} FirstRunAdds(s: Scan, uuids: seq<FaceId>, n: nat)
    requires s.existing == [] && n <= |s.detections| == |uuids|
    ensures var added := FacesToAdd(s, uuids, n);
            |added| == n && forall k :: 0 <= k < n ==> added[k] == NewFace(s, uuids, k)
  {
    if n > 0 {
      FirstRunAdds(s, uuids, n - 1);
    }
  }

  lemma {:induction false} SecondRunRepeats(s: Scan, faces: seq<Stored>, uuids: seq<FaceId>)
    requires Spread(s.detections) && s.width > 0.0 && s.height > 0.0 && |uuids| == |s.detections| == |faces|
    requires forall i, j :: 0 <= i < j < |uuids| ==> uuids[i] != uuids[j]
    requires forall k :: 0 <= k < |faces| ==> faces[k] == NewFace(s, uuids, k)
    ensures Repeats(s.(existing := faces))
  {
    var s' := s.(existing := faces);
    forall k | 0 <= k < |faces| ensures Known(s', k) && Detected(s', k) {
      assert Same(s', k, k);
    }
    forall j, k | 0 <= j < k < |faces| ensures s.detections[j].box != s.detections[k].box {
      OverlapsSelf(s.detections[j].box);
    }
  }

  /** A photo detected for the first time stores every detection; detecting it again leaves it as it is. */
  method DetectTwice(detections: seq<Detection>, width: real, height: real, uuids: seq<FaceId>, again: seq<FaceId>)
    returns (repo: FaceRepository)
    requires Spread(detections) && width > 0.0 && height > 0.0 && |uuids| == |again| == |detections|
    requires forall i, j :: 0 <= i < j < |uuids + again| ==> (uuids + again)[i] != (uuids + again)[j]
    ensures fresh(repo) && |repo.faces| == |detections| && repo.facesDetected == Some(|detections|)
    ensures forall k :: 0 <= k < |detections| ==>
              repo.faces[k] == Stored(uuids[k], detections[k].box, true, width, height)
              && uuids[k] in repo.embeddings && repo.embeddings[uuids[k]] == detections[k].embedding
  {
    repo := new FaceRepository();
    var s := Scan([], detections, width, height);
    IdsSplit(uuids, again);
    NothingPicked(s);
    var ok := repo.HandleDetectFaces(detections, width, height, uuids);
    FirstRunLeaves(s, uuids, repo.faces, repo.embeddings);
    SecondRunRepeats(s, repo.faces, uuids);
    StillNew(s, uuids, again, repo.faces, repo.embeddings);
    ok := repo.HandleDetectFaces(detections, width, height, again);
  }

  lemma {:induction false} IdsSplit(uuids: seq<FaceId>, again: seq<FaceId>)
    requires forall i, j :: 0 <= i < j < |uuids + again| ==> (uuids + again)[i] != (uuids + again)[j]
    ensures forall i, j :: 0 <= i < j < |uuids| ==> uuids[i] != uuids[j]
  {
    forall i, j | 0 <= i < j < |uuids| ensures uuids[i] != uuids[j] {
      assert (uuids + again)[i] == uuids[i] && (uuids + again)[j] == uuids[j];
    }
  }

  lemma {:induction false} NothingPicked(s: Scan)
    requires s.existing == []
    ensures Clean(s, {}) && Unpicked(s) == {}
  {
  }

  lemma {:induction false} FirstRunLeaves(s: Scan, uuids: seq<FaceId>, faces: seq<Stored>, embeddings: map<FaceId, Embedding>)
    requires s.existing == [] && |uuids| == |s.detections| && EmbeddingsRefreshed(s, uuids, map[], embeddings)
    requires faces == Kept([], Unpicked(s)) + FacesToAdd(s, uuids, |uuids|)
    ensures |faces| == |uuids| && forall k :: 0 <= k < |faces| ==> faces[k] == NewFace(s, uuids, k)
    ensures forall k :: 0 <= k < |uuids| ==> uuids[k] in embeddings && embeddings[uuids[k]] == s.detections[k].embedding
  {
    FirstRunAdds(s, uuids, |uuids|);
    forall k | 0 <= k < |uuids| ensures uuids[k] in embeddings && embeddings[uuids[k]] == s.detections[k].embedding {
      assert KeyOf(s, uuids, k) == Some(uuids[k]);
    }
  }

  /** The second run's ids are new to what the first left. */
  lemma {:induction false} StillNew(s: Scan, uuids: seq<FaceId>, again: seq<FaceId>, faces: seq<Stored>, embeddings: map<FaceId, Embedding>)
    requires s.existing == [] && |uuids| == |again| == |s.detections| == |faces|
    requires forall i, j :: 0 <= i < j < |uuids + again| ==> (uuids + again)[i] != (uuids + again)[j]
    requires forall k :: 0 <= k < |faces| ==> faces[k] == NewFace(s, uuids, k)
    requires EmbeddingsRefreshed(s, uuids, map[], embeddings)
    ensures NewIds(again, faces, embeddings.Keys)
  {
    var ids := uuids + again;
    assert forall i :: 0 <= i < |again| ==> again[i] == ids[|uuids| + i];
    assert forall i :: 0 <= i < |uuids| ==> uuids[i] == ids[i];
    forall i | 0 <= i < |again| ensures again[i] !in embeddings {
      assert forall k :: 0 <= k < |uuids| ==> KeyOf(s, uuids, k) != Some(again[i]);
    }
  }
}
