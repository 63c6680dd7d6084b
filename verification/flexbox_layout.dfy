/**
 * The decision logic of the flexbox page layout: deriving the thumbnail view-models of the
 * study browser from the selected studies, the two completion handlers of a thumbnail's
 * image load, the issued load requests, and the sidebar and main-content class strings.
 *
 * The currently selected studies are a parameter; image loading, off-screen rendering and
 * data-URI encoding are reduced to their outcome (`RenderOutcome`); `setState` is the new
 * state value.
 */
module FlexboxLayout {
  import opened Wrappers
  import Sequences

  datatype Image = Image(imageId: string)

  datatype DisplaySet = DisplaySet(
    displaySetInstanceUid: string,
    seriesDescription: string,
    seriesNumber: int,
    instanceNumber: int,
    numImageFrames: int,
    images: seq<Image>)

  /** A selected study, as the study accessor returns it. */
  datatype Study = Study(studyInstanceUid: string, displaySets: seq<DisplaySet>)

  /** The rejection value of a failed image load. */
  datatype LoadFailure = LoadFailure(reason: string)

  /** The view-model of one display set in the study browser. */
  datatype Thumbnail = Thumbnail(
    imageSrc: string,
    imageId: string,
    displaySetInstanceUid: string,
    seriesDescription: string,
    seriesNumber: int,
    instanceNumber: int,
    numImageFrames: int,
    active: bool,
    stackPercentComplete: int,
    error: Option<LoadFailure>)

  datatype BrowserStudy = BrowserStudy(studyInstanceUid: string, thumbnails: seq<Thumbnail>)

  /** The component state. */
  datatype ShellState = ShellState(
    leftSidebarOpen: bool,
    rightSidebarOpen: bool,
    studiesForBrowser: seq<BrowserStudy>)

  /** What the off-screen render of a loaded image produced: a data URI, or a thrown error. */
  datatype RenderOutcome = Rendered(dataUri: string) | RenderFailed(failure: LoadFailure)

  /** One image load issued for one thumbnail. */
  datatype LoadRequest = LoadRequest(studyInstanceUid: string, displaySetInstanceUid: string, imageId: string)

  datatype ShellView = ShellView(
    leftSidebarClass: string,
    mainContentClass: string,
    rightSidebarClass: string,
    browserStudies: seq<BrowserStudy>,
    mainStudies: seq<Study>)

  // ---------------------------------------------------------------------------------------
  // Deriving the study browser's thumbnails
  // ---------------------------------------------------------------------------------------

  /** Every display set of every study has a first image to take the thumbnail's image from. */
  predicate HasFirstImages(studies: seq<Study>) {
    forall i, j :: 0 <= i < |studies| && 0 <= j < |studies[i].displaySets| ==>
      |studies[i].displaySets[j].images| > 0
  }

  /** A thumbnail shows its display set: its identifier, metadata and first image. */
  predicate Describes(t: Thumbnail, ds: DisplaySet) {
    && |ds.images| > 0
    && t.imageId == ds.images[0].imageId
    && t.displaySetInstanceUid == ds.displaySetInstanceUid
    && t.seriesDescription == ds.seriesDescription
    && t.seriesNumber == ds.seriesNumber
    && t.instanceNumber == ds.instanceNumber
    && t.numImageFrames == ds.numImageFrames
  }

  /** A thumbnail whose image has not arrived: no image, no error, inactive, nothing loaded. */
  predicate IsFresh(t: Thumbnail) {
    t.imageSrc == "" && !t.active && t.stackPercentComplete == 0 && t.error.None?
  }

  function ThumbnailFor(ds: DisplaySet): Thumbnail
    requires |ds.images| > 0
  {
    Thumbnail("", ds.images[0].imageId, ds.displaySetInstanceUid, ds.seriesDescription,
              ds.seriesNumber, ds.instanceNumber, ds.numImageFrames, false, 0, None)
  }

  function BrowserStudyFor(s: Study): BrowserStudy
    requires forall j :: 0 <= j < |s.displaySets| ==> |s.displaySets[j].images| > 0
  {
    BrowserStudy(s.studyInstanceUid,
      seq(|s.displaySets|, j requires 0 <= j < |s.displaySets| => ThumbnailFor(s.displaySets[j])))
  }

  /**
   * One browser entry per selected study, in order, and one fresh thumbnail per display set,
   * in order, describing it.
   */
  function GetStudiesForBrowser(selected: seq<Study>): (r: seq<BrowserStudy>)
    requires HasFirstImages(selected)
    ensures |r| == |selected|
    ensures forall i :: 0 <= i < |r| ==>
      r[i].studyInstanceUid == selected[i].studyInstanceUid && |r[i].thumbnails| == |selected[i].displaySets|
    ensures forall i, j :: 0 <= i < |r| && 0 <= j < |r[i].thumbnails| ==>
      Describes(r[i].thumbnails[j], selected[i].displaySets[j]) && IsFresh(r[i].thumbnails[j])
  {
    seq(|selected|, i requires 0 <= i < |selected| => BrowserStudyFor(selected[i]))
  }

  // ---------------------------------------------------------------------------------------
  // Locating a thumbnail
  // ---------------------------------------------------------------------------------------

  function HasStudyUid(uid: string): BrowserStudy -> bool {
    (s: BrowserStudy) => s.studyInstanceUid == uid
  }

  function HasDisplaySetUid(uid: string): Thumbnail -> bool {
    (t: Thumbnail) => t.displaySetInstanceUid == uid
  }

  /** The first study with the given identifier. */
  function StudyIndex(studies: seq<BrowserStudy>, uid: string): (r: Option<nat>)
    ensures r.Some? ==> r.value < |studies| && studies[r.value].studyInstanceUid == uid
    ensures r.Some? ==> forall k :: 0 <= k < r.value ==> studies[k].studyInstanceUid != uid
    ensures r.None? <==> forall k :: 0 <= k < |studies| ==> studies[k].studyInstanceUid != uid
  {
    Sequences.FindIndex(studies, HasStudyUid(uid))
  }

  /** The first thumbnail with the given display-set identifier. */
  function ThumbnailIndex(thumbnails: seq<Thumbnail>, uid: string): (r: Option<nat>)
    ensures r.Some? ==> r.value < |thumbnails| && thumbnails[r.value].displaySetInstanceUid == uid
    ensures r.Some? ==> forall k :: 0 <= k < r.value ==> thumbnails[k].displaySetInstanceUid != uid
    ensures r.None? <==> forall k :: 0 <= k < |thumbnails| ==> thumbnails[k].displaySetInstanceUid != uid
  {
    Sequences.FindIndex(thumbnails, HasDisplaySetUid(uid))
  }

  /** Both lookups of a completion handler succeed. */
  predicate Located(studies: seq<BrowserStudy>, studyUid: string, displaySetUid: string) {
    && StudyIndex(studies, studyUid).Some?
    && ThumbnailIndex(studies[StudyIndex(studies, studyUid).value].thumbnails, displaySetUid).Some?
  }

  /** The (study, thumbnail) position a completion handler writes to. */
  function Target(studies: seq<BrowserStudy>, studyUid: string, displaySetUid: string): (p: (nat, nat))
    requires Located(studies, studyUid, displaySetUid)
    ensures p.0 < |studies| && p.1 < |studies[p.0].thumbnails|
    ensures studies[p.0].studyInstanceUid == studyUid
    ensures studies[p.0].thumbnails[p.1].displaySetInstanceUid == displaySetUid
  {
    var i := StudyIndex(studies, studyUid).value;
    (i, ThumbnailIndex(studies[i].thumbnails, displaySetUid).value)
  }

  /** The two lists have the same studies and thumbnails, identified alike, in the same places. */
  predicate SameIdentifiers(a: seq<BrowserStudy>, b: seq<BrowserStudy>) {
    && |a| == |b|
    && (forall i :: 0 <= i < |a| ==>
          a[i].studyInstanceUid == b[i].studyInstanceUid && |a[i].thumbnails| == |b[i].thumbnails|)
    && (forall i, j :: 0 <= i < |a| && 0 <= j < |a[i].thumbnails| ==>
          a[i].thumbnails[j].displaySetInstanceUid == b[i].thumbnails[j].displaySetInstanceUid)
  }

  /** Lookups see only identifiers: lists with the same identifiers locate the same positions. */
  lemma TargetOnlyReadsIdentifiers(a: seq<BrowserStudy>, b: seq<BrowserStudy>, studyUid: string, displaySetUid: string)
    requires SameIdentifiers(a, b)
    ensures Located(a, studyUid, displaySetUid) <==> Located(b, studyUid, displaySetUid)
    ensures Located(a, studyUid, displaySetUid) ==> Target(a, studyUid, displaySetUid) == Target(b, studyUid, displaySetUid)
  {
    Sequences.FindIndexAgree(a, HasStudyUid(studyUid), b, HasStudyUid(studyUid));
    var si := StudyIndex(a, studyUid);
    if si.Some? {
      var i := si.value;
      Sequences.FindIndexAgree(a[i].thumbnails, HasDisplaySetUid(displaySetUid), b[i].thumbnails, HasDisplaySetUid(displaySetUid));
    }
  }

  // ---------------------------------------------------------------------------------------
  // Completion handlers
  // ---------------------------------------------------------------------------------------

  function WithThumbnail(studies: seq<BrowserStudy>, i: nat, j: nat, t: Thumbnail): seq<BrowserStudy>
    requires i < |studies| && j < |studies[i].thumbnails|
  {
    studies[i := studies[i].(thumbnails := studies[i].thumbnails[j := t])]
  }

  /** `after` differs from `before` at most in the thumbnail at (i, j). */
  predicate OnlyThumbnailChanged(before: seq<BrowserStudy>, after: seq<BrowserStudy>, i: nat, j: nat)
    requires i < |before| && j < |before[i].thumbnails|
  {
    && |after| == |before|
    && (forall k :: 0 <= k < |before| && k != i ==> after[k] == before[k])
    && after[i].studyInstanceUid == before[i].studyInstanceUid
    && |after[i].thumbnails| == |before[i].thumbnails|
    && (forall m :: 0 <= m < |before[i].thumbnails| && m != j ==> after[i].thumbnails[m] == before[i].thumbnails[m])
  }

  /**
   * Completion of a successful image load. When the off-screen render succeeded, the first
   * matching thumbnail of the first matching study receives the data URI as `imageSrc`. A
   * render that threw has no handler: the state stays as it was.
   */
  function LoadSuccess(state: ShellState, outcome: RenderOutcome, studyUid: string, displaySetUid: string): (r: ShellState)
    requires outcome.Rendered? ==> Located(state.studiesForBrowser, studyUid, displaySetUid)
    ensures r.leftSidebarOpen == state.leftSidebarOpen && r.rightSidebarOpen == state.rightSidebarOpen
    ensures |r.studiesForBrowser| == |state.studiesForBrowser|
    ensures outcome.RenderFailed? ==> r == state
  {
    match outcome
    case RenderFailed(_) => state
    case Rendered(uri) =>
      var studies := state.studiesForBrowser;
      var (i, j) := Target(studies, studyUid, displaySetUid);
      state.(studiesForBrowser := WithThumbnail(studies, i, j, studies[i].thumbnails[j].(imageSrc := uri)))
  }

  /**
   * Completion of a failed image load: the first matching thumbnail of the first matching
   * study records the rejection value as its error.
   */
  function LoadError(state: ShellState, failure: LoadFailure, studyUid: string, displaySetUid: string): (r: ShellState)
    requires Located(state.studiesForBrowser, studyUid, displaySetUid)
    ensures r.leftSidebarOpen == state.leftSidebarOpen && r.rightSidebarOpen == state.rightSidebarOpen
    ensures |r.studiesForBrowser| == |state.studiesForBrowser|
  {
    var studies := state.studiesForBrowser;
    var (i, j) := Target(studies, studyUid, displaySetUid);
    state.(studiesForBrowser := WithThumbnail(studies, i, j, studies[i].thumbnails[j].(error := Some(failure))))
  }

  /** A write to one thumbnail changes nothing else. */
  lemma WithThumbnailFrame(studies: seq<BrowserStudy>, i: nat, j: nat, t: Thumbnail)
    requires i < |studies| && j < |studies[i].thumbnails|
    ensures OnlyThumbnailChanged(studies, WithThumbnail(studies, i, j, t), i, j)
    ensures WithThumbnail(studies, i, j, t)[i].thumbnails[j] == t
    ensures t.displaySetInstanceUid == studies[i].thumbnails[j].displaySetInstanceUid ==>
      SameIdentifiers(studies, WithThumbnail(studies, i, j, t))
  {
  }

  /**
   * A successful render changes only `imageSrc` of the located thumbnail, to the data URI;
   * every other study, thumbnail and field, the error slot included, stays as it was.
   */
  lemma LoadSuccessFrame(state: ShellState, uri: string, studyUid: string, displaySetUid: string)
    requires Located(state.studiesForBrowser, studyUid, displaySetUid)
    ensures var (i, j) := Target(state.studiesForBrowser, studyUid, displaySetUid);
      var after := LoadSuccess(state, Rendered(uri), studyUid, displaySetUid).studiesForBrowser;
      && OnlyThumbnailChanged(state.studiesForBrowser, after, i, j)
      && after[i].thumbnails[j] == state.studiesForBrowser[i].thumbnails[j].(imageSrc := uri)
  {
    var studies := state.studiesForBrowser;
    var (i, j) := Target(studies, studyUid, displaySetUid);
    WithThumbnailFrame(studies, i, j, studies[i].thumbnails[j].(imageSrc := uri));
  }

  /**
   * A failed load changes only the error slot of the located thumbnail, to the rejection
   * value; every other study, thumbnail and field stays as it was.
   */
  lemma LoadErrorFrame(state: ShellState, failure: LoadFailure, studyUid: string, displaySetUid: string)
    requires Located(state.studiesForBrowser, studyUid, displaySetUid)
    ensures var (i, j) := Target(state.studiesForBrowser, studyUid, displaySetUid);
      var after := LoadError(state, failure, studyUid, displaySetUid).studiesForBrowser;
      && OnlyThumbnailChanged(state.studiesForBrowser, after, i, j)
      && after[i].thumbnails[j] == state.studiesForBrowser[i].thumbnails[j].(error := Some(failure))
  {
    var studies := state.studiesForBrowser;
    var (i, j) := Target(studies, studyUid, displaySetUid);
    WithThumbnailFrame(studies, i, j, studies[i].thumbnails[j].(error := Some(failure)));
  }

  /** Neither handler changes an identifier, so every later lookup lands where it did before. */
  lemma HandlersKeepIdentifiers(state: ShellState, outcome: RenderOutcome, failure: LoadFailure,
                                studyUid: string, displaySetUid: string)
    requires Located(state.studiesForBrowser, studyUid, displaySetUid)
    ensures SameIdentifiers(state.studiesForBrowser, LoadSuccess(state, outcome, studyUid, displaySetUid).studiesForBrowser)
    ensures SameIdentifiers(state.studiesForBrowser, LoadError(state, failure, studyUid, displaySetUid).studiesForBrowser)
  {
    var studies := state.studiesForBrowser;
    var (i, j) := Target(studies, studyUid, displaySetUid);
    if outcome.Rendered? {
      WithThumbnailFrame(studies, i, j, studies[i].thumbnails[j].(imageSrc := outcome.dataUri));
    }
    WithThumbnailFrame(studies, i, j, studies[i].thumbnails[j].(error := Some(failure)));
  }

  lemma WithThumbnailRead(studies: seq<BrowserStudy>, i: nat, j: nat, t: Thumbnail, i': nat, j': nat)
    requires i < |studies| && j < |studies[i].thumbnails|
    requires i' < |studies| && j' < |studies[i'].thumbnails|
    ensures WithThumbnail(studies, i, j, t)[i'].thumbnails[j'] ==
      if (i, j) == (i', j') then t else studies[i'].thumbnails[j']
  {
  }

  lemma WithThumbnailTwice(studies: seq<BrowserStudy>, i: nat, j: nat, t: Thumbnail, t': Thumbnail)
    requires i < |studies| && j < |studies[i].thumbnails|
    ensures WithThumbnail(WithThumbnail(studies, i, j, t), i, j, t') == WithThumbnail(studies, i, j, t')
  {
    assert studies[i].thumbnails[j := t][j := t'] == studies[i].thumbnails[j := t'];
  }

  /** Writes to two different thumbnails commute. */
  lemma WithThumbnailCommute(studies: seq<BrowserStudy>, i1: nat, j1: nat, t1: Thumbnail,
                             i2: nat, j2: nat, t2: Thumbnail)
    requires i1 < |studies| && j1 < |studies[i1].thumbnails|
    requires i2 < |studies| && j2 < |studies[i2].thumbnails|
    requires (i1, j1) != (i2, j2)
    ensures WithThumbnail(WithThumbnail(studies, i1, j1, t1), i2, j2, t2)
         == WithThumbnail(WithThumbnail(studies, i2, j2, t2), i1, j1, t1)
  {
    var x := WithThumbnail(WithThumbnail(studies, i1, j1, t1), i2, j2, t2);
    var y := WithThumbnail(WithThumbnail(studies, i2, j2, t2), i1, j1, t1);
    forall k | 0 <= k < |x| ensures x[k] == y[k] {
      if k == i1 && k == i2 {
        assert x[k].thumbnails == y[k].thumbnails;
      }
    }
  }

  /** A successful and a failed completion commute, whichever thumbnails they address. */
  lemma SuccessAndErrorCommute(state: ShellState, uri: string, failure: LoadFailure,
                               s1: string, d1: string, s2: string, d2: string)
    requires Located(state.studiesForBrowser, s1, d1) && Located(state.studiesForBrowser, s2, d2)
    ensures
      var afterSuccess := LoadSuccess(state, Rendered(uri), s1, d1);
      var afterError := LoadError(state, failure, s2, d2);
      && Located(afterSuccess.studiesForBrowser, s2, d2)
      && Located(afterError.studiesForBrowser, s1, d1)
      && LoadError(afterSuccess, failure, s2, d2) == LoadSuccess(afterError, Rendered(uri), s1, d1)
  {
    var studies := state.studiesForBrowser;
    var afterSuccess := LoadSuccess(state, Rendered(uri), s1, d1);
    var afterError := LoadError(state, failure, s2, d2);
    HandlersKeepIdentifiers(state, Rendered(uri), failure, s1, d1);
    HandlersKeepIdentifiers(state, Rendered(uri), failure, s2, d2);
    TargetOnlyReadsIdentifiers(studies, afterSuccess.studiesForBrowser, s2, d2);
    TargetOnlyReadsIdentifiers(studies, afterError.studiesForBrowser, s1, d1);
    var (i1, j1) := Target(studies, s1, d1);
    var (i2, j2) := Target(studies, s2, d2);
    var t1 := studies[i1].thumbnails[j1].(imageSrc := uri);
    var t2 := studies[i2].thumbnails[j2].(error := Some(failure));
    WithThumbnailRead(studies, i1, j1, t1, i2, j2);
    WithThumbnailRead(studies, i2, j2, t2, i1, j1);
    if (i1, j1) == (i2, j2) {
      WithThumbnailTwice(studies, i1, j1, t1, t1.(error := Some(failure)));
      WithThumbnailTwice(studies, i1, j1, t2, t2.(imageSrc := uri));
    } else {
      WithThumbnailCommute(studies, i1, j1, t1, i2, j2, t2);
    }
  }

  /** Two successful completions for different thumbnails commute. */
  lemma SuccessesCommute(state: ShellState, uri1: string, uri2: string,
                         s1: string, d1: string, s2: string, d2: string)
    requires Located(state.studiesForBrowser, s1, d1) && Located(state.studiesForBrowser, s2, d2)
    requires Target(state.studiesForBrowser, s1, d1) != Target(state.studiesForBrowser, s2, d2)
    ensures
      var after1 := LoadSuccess(state, Rendered(uri1), s1, d1);
      var after2 := LoadSuccess(state, Rendered(uri2), s2, d2);
      && Located(after1.studiesForBrowser, s2, d2)
      && Located(after2.studiesForBrowser, s1, d1)
      && LoadSuccess(after1, Rendered(uri2), s2, d2) == LoadSuccess(after2, Rendered(uri1), s1, d1)
  {
    var studies := state.studiesForBrowser;
    var after1 := LoadSuccess(state, Rendered(uri1), s1, d1);
    var after2 := LoadSuccess(state, Rendered(uri2), s2, d2);
    HandlersKeepIdentifiers(state, Rendered(uri1), LoadFailure(""), s1, d1);
    HandlersKeepIdentifiers(state, Rendered(uri2), LoadFailure(""), s2, d2);
    TargetOnlyReadsIdentifiers(studies, after1.studiesForBrowser, s2, d2);
    TargetOnlyReadsIdentifiers(studies, after2.studiesForBrowser, s1, d1);
    var (i1, j1) := Target(studies, s1, d1);
    var (i2, j2) := Target(studies, s2, d2);
    var t1 := studies[i1].thumbnails[j1].(imageSrc := uri1);
    var t2 := studies[i2].thumbnails[j2].(imageSrc := uri2);
    WithThumbnailRead(studies, i1, j1, t1, i2, j2);
    WithThumbnailRead(studies, i2, j2, t2, i1, j1);
    WithThumbnailCommute(studies, i1, j1, t1, i2, j2, t2);
  }

  /** Two failed completions for different thumbnails commute. */
  lemma ErrorsCommute(state: ShellState, failure1: LoadFailure, failure2: LoadFailure,
                      s1: string, d1: string, s2: string, d2: string)
    requires Located(state.studiesForBrowser, s1, d1) && Located(state.studiesForBrowser, s2, d2)
    requires Target(state.studiesForBrowser, s1, d1) != Target(state.studiesForBrowser, s2, d2)
    ensures
      var after1 := LoadError(state, failure1, s1, d1);
      var after2 := LoadError(state, failure2, s2, d2);
      && Located(after1.studiesForBrowser, s2, d2)
      && Located(after2.studiesForBrowser, s1, d1)
      && LoadError(after1, failure2, s2, d2) == LoadError(after2, failure1, s1, d1)
  {
    var studies := state.studiesForBrowser;
    var after1 := LoadError(state, failure1, s1, d1);
    var after2 := LoadError(state, failure2, s2, d2);
    HandlersKeepIdentifiers(state, RenderFailed(failure1), failure1, s1, d1);
    HandlersKeepIdentifiers(state, RenderFailed(failure2), failure2, s2, d2);
    TargetOnlyReadsIdentifiers(studies, after1.studiesForBrowser, s2, d2);
    TargetOnlyReadsIdentifiers(studies, after2.studiesForBrowser, s1, d1);
    var (i1, j1) := Target(studies, s1, d1);
    var (i2, j2) := Target(studies, s2, d2);
    var t1 := studies[i1].thumbnails[j1].(error := Some(failure1));
    var t2 := studies[i2].thumbnails[j2].(error := Some(failure2));
    WithThumbnailRead(studies, i1, j1, t1, i2, j2);
    WithThumbnailRead(studies, i2, j2, t2, i1, j1);
    WithThumbnailCommute(studies, i1, j1, t1, i2, j2, t2);
  }

  /** A successful completion never touches the error slot; a failed one never touches the image. */
  lemma HandlersWriteSeparateFields(state: ShellState, uri: string, failure: LoadFailure,
                                    studyUid: string, displaySetUid: string)
    requires Located(state.studiesForBrowser, studyUid, displaySetUid)
    requires uri != ""
    ensures var (i, j) := Target(state.studiesForBrowser, studyUid, displaySetUid);
      var before := state.studiesForBrowser[i].thumbnails[j];
      var ok := LoadSuccess(state, Rendered(uri), studyUid, displaySetUid).studiesForBrowser[i].thumbnails[j];
      var failed := LoadError(state, failure, studyUid, displaySetUid).studiesForBrowser[i].thumbnails[j];
      && ok.imageSrc != "" && ok.error == before.error
      && failed.error == Some(failure) && failed.imageSrc == before.imageSrc
  {
    LoadSuccessFrame(state, uri, studyUid, displaySetUid);
    LoadErrorFrame(state, failure, studyUid, displaySetUid);
  }

  // ---------------------------------------------------------------------------------------
  // Issued load requests
  // ---------------------------------------------------------------------------------------

  function StudyRequests(s: BrowserStudy): seq<LoadRequest> {
    seq(|s.thumbnails|, j requires 0 <= j < |s.thumbnails| =>
      LoadRequest(s.studyInstanceUid, s.thumbnails[j].displaySetInstanceUid, s.thumbnails[j].imageId))
  }

  /** One load per thumbnail, study by study, each tagged with the identifiers its completion looks up. */
  function LoadRequests(studies: seq<BrowserStudy>): seq<LoadRequest>
    decreases |studies|
  {
    if |studies| == 0 then [] else StudyRequests(studies[0]) + LoadRequests(studies[1..])
  }

  /** Every request was issued for some thumbnail, and names that thumbnail's identifiers and image. */
  lemma {:induction false} RequestOrigin(studies: seq<BrowserStudy>, r: LoadRequest) returns (i: nat, j: nat)
    requires r in LoadRequests(studies)
    ensures i < |studies| && j < |studies[i].thumbnails|
    ensures r == LoadRequest(studies[i].studyInstanceUid, studies[i].thumbnails[j].displaySetInstanceUid,
                             studies[i].thumbnails[j].imageId)
    decreases |studies|
  {
    if r in StudyRequests(studies[0]) {
      var m :| 0 <= m < |StudyRequests(studies[0])| && StudyRequests(studies[0])[m] == r;
      i, j := 0, m;
    } else {
      var i', j' := RequestOrigin(studies[1..], r);
      i, j := i' + 1, j';
    }
  }

  predicate UniqueStudyUids(studies: seq<BrowserStudy>) {
    forall i, k :: 0 <= i < k < |studies| ==> studies[i].studyInstanceUid != studies[k].studyInstanceUid
  }

  predicate UniqueDisplaySetUids(studies: seq<BrowserStudy>) {
    forall i, j, m :: 0 <= i < |studies| && 0 <= j < m < |studies[i].thumbnails| ==>
      studies[i].thumbnails[j].displaySetInstanceUid != studies[i].thumbnails[m].displaySetInstanceUid
  }

  /**
   * With distinct study identifiers, the completion of every load issued from `issued` finds
   * a thumbnail in any later state with the same identifiers, so the handlers' unguarded
   * lookups succeed; with distinct display-set identifiers too, it is the very thumbnail the
   * load was issued for.
   */
  lemma CompletionsFindTheirThumbnails(issued: seq<BrowserStudy>, current: seq<BrowserStudy>, r: LoadRequest)
    requires UniqueStudyUids(issued) && SameIdentifiers(issued, current)
    requires r in LoadRequests(issued)
    ensures Located(current, r.studyInstanceUid, r.displaySetInstanceUid)
    ensures UniqueDisplaySetUids(issued) ==>
      var (i, j) := Target(issued, r.studyInstanceUid, r.displaySetInstanceUid);
      issued[i].thumbnails[j].imageId == r.imageId
  {
    var i, j := RequestOrigin(issued, r);
    var si := StudyIndex(issued, r.studyInstanceUid);
    assert si == Some(i);
    assert ThumbnailIndex(issued[i].thumbnails, r.displaySetInstanceUid).Some?;
    TargetOnlyReadsIdentifiers(issued, current, r.studyInstanceUid, r.displaySetInstanceUid);
  }

  // ---------------------------------------------------------------------------------------
  // Initial state and class strings
  // ---------------------------------------------------------------------------------------

  /** The component's state on construction: left sidebar open, right closed, fresh thumbnails. */
  function InitialState(selected: seq<Study>): (r: ShellState)
    requires HasFirstImages(selected)
    ensures r.leftSidebarOpen && !r.rightSidebarOpen
    ensures SameIdentifiersAsSelected(r.studiesForBrowser, selected)
    ensures forall i, j :: 0 <= i < |r.studiesForBrowser| && 0 <= j < |r.studiesForBrowser[i].thumbnails| ==>
      IsFresh(r.studiesForBrowser[i].thumbnails[j])
  {
    ShellState(true, false, GetStudiesForBrowser(selected))
  }

  /** The browser entries carry the selected studies' and display sets' identifiers, in order. */
  predicate SameIdentifiersAsSelected(studies: seq<BrowserStudy>, selected: seq<Study>) {
    && |studies| == |selected|
    && (forall i :: 0 <= i < |studies| ==>
          studies[i].studyInstanceUid == selected[i].studyInstanceUid
          && |studies[i].thumbnails| == |selected[i].displaySets|)
    && (forall i, j :: 0 <= i < |studies| && 0 <= j < |studies[i].thumbnails| ==>
          studies[i].thumbnails[j].displaySetInstanceUid == selected[i].displaySets[j].displaySetInstanceUid)
  }

  function MainContentClass(leftOpen: bool, rightOpen: bool): string {
    "mainContent" + (if leftOpen then " sidebar-left-open" else "") + (if rightOpen then " sidebar-right-open" else "")
  }

  function LeftSidebarClass(open: bool): string {
    if open then "sidebarMenu sidebar-left sidebar-open" else "sidebarMenu sidebar-left"
  }

  function RightSidebarClass(open: bool): string {
    if open then "sidebarMenu sidebar-right sidebar-open" else "sidebarMenu sidebar-right"
  }

  predicate StartsWith(s: string, prefix: string) {
    |prefix| <= |s| && s[..|prefix|] == prefix
  }

  predicate EndsWith(s: string, suffix: string) {
    |suffix| <= |s| && s[|s| - |suffix|..] == suffix
  }

  /**
   * Reads the sidebar flags back from a main-content class: "mainContent", then optionally
   * the left marker, then optionally the right marker, in that order and nothing else.
   */
  function ParseMainContentClass(s: string): Option<(bool, bool)> {
    if !StartsWith(s, "mainContent") then None
    else
      var rest := s[|"mainContent"|..];
      var leftOpen := StartsWith(rest, " sidebar-left-open");
      var tail := if leftOpen then rest[|" sidebar-left-open"|..] else rest;
      if tail == "" then Some((leftOpen, false))
      else if tail == " sidebar-right-open" then Some((leftOpen, true))
      else None
  }

  /** The main-content class states both sidebar flags, left marker before right marker. */
  lemma MainContentClassRoundTrip(leftOpen: bool, rightOpen: bool)
    ensures ParseMainContentClass(MainContentClass(leftOpen, rightOpen)) == Some((leftOpen, rightOpen))
  {
    var s := MainContentClass(leftOpen, rightOpen);
    assert s[..|"mainContent"|] == "mainContent";
    var rest := s[|"mainContent"|..];
    if leftOpen {
      assert rest[..|" sidebar-left-open"|] == " sidebar-left-open";
    } else if rightOpen {
      assert rest == " sidebar-right-open";
      assert rest[9] != " sidebar-left-open"[9];
    } else {
      assert rest == "";
    }
  }

  /** A sidebar's class gains the open marker exactly when its flag is set. */
  lemma SidebarClassMarksOpen(open: bool)
    ensures EndsWith(LeftSidebarClass(open), " sidebar-open") <==> open
    ensures EndsWith(RightSidebarClass(open), " sidebar-open") <==> open
    ensures StartsWith(LeftSidebarClass(open), "sidebarMenu sidebar-left")
    ensures StartsWith(RightSidebarClass(open), "sidebarMenu sidebar-right")
  {
    var l := LeftSidebarClass(open);
    var r := RightSidebarClass(open);
    if !open {
      assert l[|l| - |" sidebar-open"|..] == " sidebar-left";
      assert r[|r| - |" sidebar-open"|..] == "sidebar-right";
    }
  }

  /** The rendered shell: class strings from the flags, thumbnails from the state, the host's studies passed through. */
  function RenderShell(state: ShellState, studies: seq<Study>): (v: ShellView)
    ensures ParseMainContentClass(v.mainContentClass) == Some((state.leftSidebarOpen, state.rightSidebarOpen))
    ensures EndsWith(v.leftSidebarClass, " sidebar-open") <==> state.leftSidebarOpen
    ensures EndsWith(v.rightSidebarClass, " sidebar-open") <==> state.rightSidebarOpen
    ensures v.browserStudies == state.studiesForBrowser && v.mainStudies == studies
  {
    MainContentClassRoundTrip(state.leftSidebarOpen, state.rightSidebarOpen);
    SidebarClassMarksOpen(state.leftSidebarOpen);
    SidebarClassMarksOpen(state.rightSidebarOpen);
    ShellView(LeftSidebarClass(state.leftSidebarOpen), MainContentClass(state.leftSidebarOpen, state.rightSidebarOpen),
              RightSidebarClass(state.rightSidebarOpen), state.studiesForBrowser, studies)
  }

  /** The first render shows the left sidebar open and the right one closed. */
  lemma InitialRender(selected: seq<Study>, studies: seq<Study>)
    requires HasFirstImages(selected)
    ensures ParseMainContentClass(RenderShell(InitialState(selected), studies).mainContentClass) == Some((true, false))
    ensures EndsWith(RenderShell(InitialState(selected), studies).leftSidebarClass, " sidebar-open")
    ensures !EndsWith(RenderShell(InitialState(selected), studies).rightSidebarClass, " sidebar-open")
  {
    var st := InitialState(selected);
    assert st.leftSidebarOpen && !st.rightSidebarOpen;
  }
}
