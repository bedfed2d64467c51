/** The photo panel of the inspection wizard: the guideline shown for the
    current step, and the gallery of photos uploaded through the panel.
    The wizard keeps one panel for all its photo steps and only changes
    the step it shows, so the gallery and the drop handler outlive a step.
    Storage and database calls are not modelled; each call's outcome is a
    parameter of the operation that makes it. */
module PhotoUpload {
  import opened Common
  import opened Text

  /** A wizard step as the panel receives it. */
  datatype Step = Step(id: string, name: string, description: string)

  /** The advice shown above the upload area. */
  datatype Guideline = Guideline(title: string, instructions: seq<string>)

  const StepGuidelines: map<string, Guideline> := map[
    "tipo" := Guideline("Tipo de Inspeção", [
      "Definir se é registro ou testes",
      "Selecionar tipo de teste se aplicável",
      "Escolher componentes do teste"]),
    "chegada" := Guideline("Fotos da Válvula na Chegada", [
      "Foto geral da válvula completa",
      "Placa de identificação/nameplate",
      "Estado geral da válvula",
      "Eventuais danos visíveis"]),
    "desmontada" := Guideline("Fotos da Válvula Desmontada", [
      "Corpo da válvula desmontado",
      "Vista dos componentes internos",
      "Estado das roscas",
      "Componentes separados organizados"]),
    "disco" := Guideline("Fotos do Disco", [
      "Vista frontal do disco",
      "Vista lateral do disco",
      "Sede do disco",
      "O-rings e vedações internas",
      "Eventuais desgastes ou danos"]),
    "bocal" := Guideline("Fotos do Bocal", [
      "Vista interna do bocal",
      "Sede do bocal",
      "Roscas do bocal",
      "Estado da superfície"]),
    "castelo" := Guideline("Fotos do Castelo", [
      "Vista do castelo",
      "Vista do capuz e alavanca (se aplicável)",
      "Vista das roscas",
      "Vista dos flanges",
      "Pontos de oxidação externos (se aplicável)"]),
    "finalizada" := Guideline("Fotos da Válvula Finalizada", [
      "Válvula montada completa",
      "Plaqueta de identificação",
      "Lacre aplicado"]),
    "lacre" := Guideline("Fotos do Lacre", [
      "Lacre aplicado na válvula",
      "Código do lacre visível",
      "Posição do lacre",
      "Estado do lacre aplicado"])
  ]

  const FallbackInstruction := "Fotos relevantes para esta etapa"

  /** The guideline of a step: its own entry in the table when it has one,
      otherwise the step's name with a single generic instruction. */
  function GuidelineFor(step: Step): (g: Guideline)
    ensures step.id in StepGuidelines ==> g == StepGuidelines[step.id]
    ensures step.id !in StepGuidelines ==> g.title == step.name && g.instructions == [FallbackInstruction]
  {
    if step.id in StepGuidelines then StepGuidelines[step.id]
    else Guideline(step.name, [FallbackInstruction])
  }

  /** Every step gets at least one instruction, from the table or from the
      fallback. */
  lemma GuidelineHasInstructions(step: Step)
    ensures |GuidelineFor(step).instructions| > 0
  {
    var ids := ["tipo", "chegada", "desmontada", "disco", "bocal", "castelo", "finalizada", "lacre"];
    assert StepGuidelines.Keys == set i | i in ids;
    if step.id in StepGuidelines {
      var k :| k in ids && k == step.id;
    }
  }

  /** A photo as the gallery shows it. */
  datatype Photo = Photo(id: string, url: string, name: string, description: string)

  /** A file the user picked; only its name matters here. */
  datatype File = File(name: string)

  /** What became of one file of a batch: it failed (upload or database
      insert), or it was stored and recorded under a new id with a public
      URL. */
  datatype FileOutcome = Failed | Saved(photoId: string, publicUrl: string)

  /** `<inspectionId>/<stepId>/<stamp>.<ext>`: where a file is stored; the
      stamp is the upload time and a random suffix, `ext` the text after the
      file name's last `.`. */
  function StoragePath(inspectionId: string, stepId: string, stamp: string, fileName: string): string {
    inspectionId + "/" + stepId + "/" + StoredName(stamp, fileName)
  }

  /** `<stamp>.<ext>`: the name a file is stored under. */
  function StoredName(stamp: string, fileName: string): string {
    stamp + "." + LastPiece(fileName, '.')
  }

  /** A stored file lies under its inspection and step, and keeps the file
      name's extension. */
  lemma StoragePathShape(inspectionId: string, stepId: string, stamp: string, fileName: string)
    ensures var prefix := inspectionId + "/" + stepId + "/";
            var p := StoragePath(inspectionId, stepId, stamp, fileName);
            |prefix| <= |p| && p[..|prefix|] == prefix
    ensures LastPiece(StoragePath(inspectionId, stepId, stamp, fileName), '.') == LastPiece(fileName, '.')
  {
    var ext := LastPiece(fileName, '.');
    var front := inspectionId + "/" + stepId + "/" + stamp;
    assert StoragePath(inspectionId, stepId, stamp, fileName) == front + ['.'] + ext;
    LastPieceAfterSeparator(front, '.', ext);
  }

  /** Removal rebuilds a file's storage path from the last `/`-piece of its
      URL under the inspection and the step the panel shows at removal
      time. When neither the stamp nor the extension holds a `/`, the
      rebuilt path is the path the file was uploaded to exactly when the
      panel shows the step the file was uploaded under. */
  lemma RemovalPathRoundTrip(inspectionId: string, uploadStepId: string, removeStepId: string,
                             stamp: string, fileName: string)
    requires '/' !in stamp && '/' !in LastPiece(fileName, '.')
    ensures var p := StoragePath(inspectionId, uploadStepId, stamp, fileName);
            inspectionId + "/" + removeStepId + "/" + LastPiece(p, '/') == p <==> removeStepId == uploadStepId
  {
    NoSlashInStoredName(stamp, fileName);
    RebuiltPath(inspectionId, uploadStepId, removeStepId, StoredName(stamp, fileName));
  }

  lemma NoSlashInStoredName(stamp: string, fileName: string)
    requires '/' !in stamp && '/' !in LastPiece(fileName, '.')
    ensures '/' !in StoredName(stamp, fileName)
  {
    assert '/' !in stamp + ".";
  }

  /** Rebuilding `<front>/<stepId>/<tail>` from its last `/`-piece under
      another step id gives the same path exactly when the step ids agree. */
  lemma RebuiltPath(front: string, uploadStepId: string, removeStepId: string, tail: string)
    requires '/' !in tail
    ensures front + "/" + removeStepId + "/" + LastPiece(front + "/" + uploadStepId + "/" + tail, '/')
              == front + "/" + uploadStepId + "/" + tail
            <==> removeStepId == uploadStepId
  {
    LastSlashPiece(front, uploadStepId, tail);
    StepCancels(front, removeStepId, uploadStepId, tail);
  }

  lemma LastSlashPiece(front: string, stepId: string, tail: string)
    requires '/' !in tail
    ensures LastPiece(front + "/" + stepId + "/" + tail, '/') == tail
  {
    assert front + "/" + stepId + "/" + tail == (front + "/" + stepId) + ['/'] + tail;
    LastPieceAfterSeparator(front + "/" + stepId, '/', tail);
  }

  lemma StepCancels(front: string, x: string, y: string, tail: string)
    ensures front + "/" + x + "/" + tail == front + "/" + y + "/" + tail <==> x == y
  {
    assert front + "/" + x + "/" + tail == (front + "/") + x + ("/" + tail);
    assert front + "/" + y + "/" + tail == (front + "/") + y + ("/" + tail);
    if front + "/" + x + "/" + tail == front + "/" + y + "/" + tail {
      MiddleCancels(front + "/", x, y, "/" + tail);
    }
  }

  /** Equal strings with the same front and back have the same middle. */
  lemma MiddleCancels(front: string, x: string, y: string, back: string)
    requires front + x + back == front + y + back
    ensures x == y
  {
    var s := front + x + back;
    assert |x| == |y|;
    assert s[|front|..|front| + |x|] == x;
    assert (front + y + back)[|front|..|front| + |y|] == y;
  }

  /** A photo uploaded at the arrival step and removed once the panel shows
      the dismantled step: removal asks for a path the file is not stored
      under, so the stored file stays behind. */
  lemma StaleRemovalPath(inspectionId: string, stamp: string, fileName: string)
    requires '/' !in stamp && '/' !in LastPiece(fileName, '.')
    ensures var p := StoragePath(inspectionId, "chegada", stamp, fileName);
            inspectionId + "/" + "desmontada" + "/" + LastPiece(p, '/') != p
  {
    assert "desmontada" != "chegada" by {
      assert |"desmontada"| != |"chegada"|;
    }
    RemovalPathRoundTrip(inspectionId, "chegada", "desmontada", stamp, fileName);
  }

  /** The storage paths of a batch, one per file. */
  function BatchPaths(inspectionId: string, stepId: string, files: seq<File>, stamps: seq<string>): (paths: seq<string>)
    requires |stamps| == |files|
    ensures |paths| == |files|
    ensures forall i :: 0 <= i < |files| ==> paths[i] == StoragePath(inspectionId, stepId, stamps[i], files[i].name)
  {
    seq(|files|, i requires 0 <= i < |files| => StoragePath(inspectionId, stepId, stamps[i], files[i].name))
  }

  /** The photos a batch adds: one per saved file, in input order, with an
      empty description; failed files are skipped. */
  function Uploaded(files: seq<File>, outcomes: seq<FileOutcome>): (r: seq<Photo>)
    requires |files| == |outcomes|
    ensures |r| <= |files|
    ensures forall p :: p in r ==> p.description == "" && exists i :: 0 <= i < |files| && p.name == files[i].name
  {
    if files == [] then []
    else
      var rest := Uploaded(files[1..], outcomes[1..]);
      assert forall p :: p in rest ==> exists i :: 0 <= i < |files| && p.name == files[i].name by {
        forall p | p in rest ensures exists i :: 0 <= i < |files| && p.name == files[i].name {
          var j :| 0 <= j < |files[1..]| && p.name == files[1..][j].name;
          assert p.name == files[j + 1].name;
        }
      }
      match outcomes[0]
      case Failed => rest
      case Saved(id, url) => [Photo(id, url, files[0].name, "")] + rest
  }

  /** Files of a batch are handled one by one: the photos of two batches
      joined are the photos of each, in order. */
  lemma {:induction false} UploadedAppend(f1: seq<File>, o1: seq<FileOutcome>, f2: seq<File>, o2: seq<FileOutcome>)
    requires |f1| == |o1| && |f2| == |o2|
    ensures Uploaded(f1 + f2, o1 + o2) == Uploaded(f1, o1) + Uploaded(f2, o2)
  {
    if f1 == [] {
      assert f1 + f2 == f2 && o1 + o2 == o2;
    } else {
      assert (f1 + f2)[0] == f1[0] && (o1 + o2)[0] == o1[0];
      assert (f1 + f2)[1..] == f1[1..] + f2 && (o1 + o2)[1..] == o1[1..] + o2;
      UploadedAppend(f1[1..], o1[1..], f2, o2);
    }
  }

  /** One failed file costs exactly its own photo: its siblings are added
      as if it had not been in the batch. */
  lemma FailureIsIsolated(files: seq<File>, outcomes: seq<FileOutcome>, i: nat)
    requires |files| == |outcomes| && i < |files|
    ensures Uploaded(files, outcomes[i := Failed])
         == Uploaded(files[..i], outcomes[..i]) + Uploaded(files[i + 1..], outcomes[i + 1..])
  {
    var o := outcomes[i := Failed];
    assert files == files[..i] + ([files[i]] + files[i + 1..]);
    assert o == o[..i] + ([Failed] + o[i + 1..]);
    assert o[..i] == outcomes[..i] && o[i + 1..] == outcomes[i + 1..];
    UploadedAppend([files[i]], [Failed], files[i + 1..], o[i + 1..]);
    UploadedAppend(files[..i], o[..i], [files[i]] + files[i + 1..], [Failed] + o[i + 1..]);
  }

  /** When every file is saved, the batch adds one photo per file, in
      order, carrying the file's name and the id and URL it was saved
      under. */
  lemma {:induction false} AllSaved(files: seq<File>, outcomes: seq<FileOutcome>)
    requires |files| == |outcomes|
    requires forall i :: 0 <= i < |outcomes| ==> outcomes[i].Saved?
    ensures |Uploaded(files, outcomes)| == |files|
    ensures forall i :: 0 <= i < |files| ==>
              Uploaded(files, outcomes)[i] == Photo(outcomes[i].photoId, outcomes[i].publicUrl, files[i].name, "")
  {
    if files != [] {
      AllSaved(files[1..], outcomes[1..]);
    }
  }

  /** `prev.filter(p => p.id !== id)`. */
  function Removed(photos: seq<Photo>, id: string): (r: seq<Photo>)
    ensures |r| <= |photos|
    ensures forall p :: p in r <==> p in photos && p.id != id
  {
    if photos == [] then []
    else (if photos[0].id != id then [photos[0]] else []) + Removed(photos[1..], id)
  }

  /** Removal works photo by photo, so the photos that stay keep their
      order and their repetitions. */
  lemma {:induction false} RemovedAppend(a: seq<Photo>, b: seq<Photo>, id: string)
    ensures Removed(a + b, id) == Removed(a, id) + Removed(b, id)
  {
    if a == [] {
      assert a + b == b;
    } else {
      assert (a + b)[0] == a[0];
      assert (a + b)[1..] == a[1..] + b;
      RemovedAppend(a[1..], b, id);
    }
  }

  /** Removing an id no photo carries leaves the gallery as it was. */
  lemma {:induction false} RemovedAbsent(photos: seq<Photo>, id: string)
    requires forall p :: p in photos ==> p.id != id
    ensures Removed(photos, id) == photos
  {
    if photos != [] {
      RemovedAbsent(photos[1..], id);
      assert [photos[0]] + photos[1..] == photos;
    }
  }

  /** `prev.map(p => p.id === id ? { ...p, description } : p)`. */
  function Described(photos: seq<Photo>, id: string, description: string): (r: seq<Photo>)
    ensures |r| == |photos|
    ensures forall i :: 0 <= i < |photos| ==>
              r[i] == if photos[i].id == id then photos[i].(description := description) else photos[i]
  {
    if photos == [] then []
    else [if photos[0].id == id then photos[0].(description := description) else photos[0]]
         + Described(photos[1..], id, description)
  }

  /** A caption edit followed by the removal of that photo leaves the same
      gallery as the removal alone. */
  lemma {:induction false} RemoveAfterDescribe(photos: seq<Photo>, id: string, description: string)
    ensures Removed(Described(photos, id, description), id) == Removed(photos, id)
  {
    if photos != [] {
      RemoveAfterDescribe(photos[1..], id, description);
      var d := Described(photos, id, description);
      assert d[1..] == Described(photos[1..], id, description);
    }
  }

  /** How a batch reached the panel: the file dialog, or a drop on the
      upload area. */
  datatype Source = Dialog | Drop

  /** The panel's state: the step it shows, the gallery and whether a
      batch is in flight. `firstStep` is the step of the panel's first
      render: the drop handler is created once, with no dependencies, so
      it keeps uploading under that step. */
  class Gallery {
    const inspectionId: string
    const firstStep: Step
    var step: Step
    var photos: seq<Photo>
    var uploading: bool

    constructor (inspectionId: string, step: Step)
      ensures this.inspectionId == inspectionId && this.firstStep == step && this.step == step
      ensures photos == [] && !uploading
    {
      this.inspectionId := inspectionId;
      firstStep := step;
      this.step := step;
      photos := [];
      uploading := false;
    }

    /** The wizard moves to another photo step: the same panel shows the
        new step, and its gallery, including the photos of earlier steps,
        is kept. */
    method ShowStep(next: Step)
      modifies this`step
      ensures step == next
      ensures photos == old(photos) && uploading == old(uploading)
    {
      step := next;
    }

    /** The synchronous start of `uploadFiles`: an empty batch does
        nothing, otherwise the panel shows that it is uploading. */
    method BeginUpload(files: seq<File>) returns (started: bool)
      modifies this`uploading
      ensures started <==> |files| > 0
      ensures uploading == (if started then true else old(uploading))
    {
      started := |files| > 0;
      if started {
        uploading := true;
      }
    }

    /** The end of `uploadFiles`, once every file of the batch has settled:
        the saved photos are appended in input order and the panel stops
        showing that it is uploading. Returns the storage path each file
        was sent to. */
    method CompleteUpload(stepId: string, files: seq<File>, stamps: seq<string>, outcomes: seq<FileOutcome>)
      returns (paths: seq<string>)
      requires |stamps| == |files| && |outcomes| == |files|
      modifies this`photos, this`uploading
      ensures paths == BatchPaths(inspectionId, stepId, files, stamps)
      ensures photos == old(photos) + Uploaded(files, outcomes)
      ensures !uploading
    {
      paths := BatchPaths(inspectionId, stepId, files, stamps);
      photos := photos + Uploaded(files, outcomes);
      uploading := false;
    }

    /** `uploadFiles` run to completion, from the dialog or from a drop.
        Returns the storage path of each file and the step id (`etapa`)
        the photo rows are recorded under: the current step for the file
        dialog, the first render's step for a drop. */
    method UploadFiles(source: Source, files: seq<File>, stamps: seq<string>, outcomes: seq<FileOutcome>)
      returns (paths: seq<string>, etapa: string)
      requires |stamps| == |files| && |outcomes| == |files|
      modifies this`photos, this`uploading
      ensures etapa == if source == Drop then firstStep.id else step.id
      ensures |files| == 0 ==> paths == [] && photos == old(photos) && uploading == old(uploading)
      ensures |files| > 0 ==>
                && paths == BatchPaths(inspectionId, etapa, files, stamps)
                && photos == old(photos) + Uploaded(files, outcomes)
                && !uploading
    {
      etapa := if source == Drop then firstStep.id else step.id;
      var started := BeginUpload(files);
      if !started {
        return [], etapa;
      }
      paths := CompleteUpload(etapa, files, stamps, outcomes);
    }

    /** `removePhoto`: the database row is deleted first; only when that
        succeeds and the photo's URL parses is the photo taken out of the
        gallery. `urlFileName` is the last `/`-piece of the URL's path, or
        `None` when the URL does not parse. Returns the storage path whose
        removal is requested (its outcome is not looked at). */
    method RemovePhoto(photo: Photo, deleted: bool, urlFileName: Option<string>) returns (removal: Option<string>)
      modifies this`photos
      ensures !deleted || urlFileName.None? ==> photos == old(photos) && removal == None
      ensures deleted && urlFileName.Some? ==>
                photos == Removed(old(photos), photo.id)
                && removal == (if Truthy(urlFileName.value)
                               then Some(inspectionId + "/" + step.id + "/" + urlFileName.value)
                               else None)
    {
      removal := None;
      if !deleted {
        return;
      }
      if urlFileName.None? {
        return;
      }
      if Truthy(urlFileName.value) {
        removal := Some(inspectionId + "/" + step.id + "/" + urlFileName.value);
      }
      photos := Removed(photos, photo.id);
    }

    /** `updatePhotoDescription`: the description changes in the gallery
        only once the database update succeeded. */
    method UpdatePhotoDescription(photoId: string, description: string, updated: bool)
      modifies this`photos
      ensures photos == if updated then Described(old(photos), photoId, description) else old(photos)
    {
      if updated {
        photos := Described(photos, photoId, description);
      }
    }
  }
}
