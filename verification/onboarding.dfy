/** The first-run profile dialog (src/components/onboarding-modal.tsx): a
 *  bio of at least 200 characters and an uploaded resume are both needed
 *  before the profile can be completed. The dialog imports its two server
 *  actions from a module that defines neither; `UploadComplete` is the
 *  intended upload handler and `UploadCompleteAsWritten` the one as
 *  written. */
module Onboarding {
  import opened Wrappers

  const MinCharacters: int := 200

  datatype State = State(bio: string, resumeUploaded: bool, submitting: bool, step: int)

  const Initial: State := State("", false, false, 0)

  /** Whether `handleSubmit` goes on to save the bio. */
  predicate CanSubmit(s: State)
  {
    |s.bio| >= MinCharacters && s.resumeUploaded
  }

  /** `handleSubmit`: the bio to save, or `None` when the gate stops it. */
  function Submit(s: State): (r: Option<string>)
    ensures r.Some? <==> |s.bio| >= MinCharacters && s.resumeUploaded
    ensures r.Some? ==> r.value == s.bio
  {
    if |s.bio| < MinCharacters || !s.resumeUploaded then None else Some(s.bio)
  }

  /** The button is disabled exactly when the gate would stop a click, or a
   *  save is under way. */
  predicate ButtonDisabled(s: State)
  {
    |s.bio| < MinCharacters || !s.resumeUploaded || s.submitting
  }

  lemma EnabledButtonSubmits(s: State)
    requires !ButtonDisabled(s)
    ensures Submit(s) == Some(s.bio)
  {
  }

  /** `Math.min(length / 200 * 100, 100)`, as an exact ratio. */
  function Progress(s: State): (p: real)
    ensures 0.0 <= p <= 100.0
    ensures |s.bio| >= MinCharacters <==> p == 100.0
    ensures |s.bio| < MinCharacters ==> p * 2.0 == |s.bio| as real
  {
    var raw := (|s.bio| as real) / (MinCharacters as real) * 100.0;
    if raw < 100.0 then raw else 100.0
  }

  /** `handleUploadComplete`. `data` is how many files the uploader reports
   *  and `saved` whether the server stored the first one. */
  function UploadComplete(s: State, files: nat, saved: bool): (r: State)
    ensures files == 0 || !saved ==> r == s
    ensures files > 0 && saved ==> r == s.(resumeUploaded := true, step := s.step + 1)
  {
    if files > 0 && saved then s.(resumeUploaded := true, step := s.step + 1) else s
  }

  /** `handleUploadComplete` as written. The resume action is imported from
   *  the job-board actions, which define no such function, so for a
   *  non-empty upload the call of `undefined` throws before `success` is
   *  set. Nothing after it runs, so an upload changes the dialog exactly as
   *  an upload the server refused would. */
  function UploadCompleteAsWritten(s: State, files: nat): (r: State)
    ensures r == UploadComplete(s, files, false)
    ensures r.resumeUploaded == s.resumeUploaded && r.step == s.step
  {
    s
  }

  function UploadsAsWritten(s: State, files: seq<nat>): State
    decreases |files|
  {
    if |files| == 0 then s else UploadsAsWritten(UploadCompleteAsWritten(s, files[0]), files[1..])
  }

  /** As written no sequence of uploads sets the upload flag. */
  lemma {:induction false} UploadsAsWrittenKeepFlag(s: State, files: seq<nat>)
    ensures UploadsAsWritten(s, files).resumeUploaded == s.resumeUploaded
    ensures UploadsAsWritten(s, files).bio == s.bio
    decreases |files|
  {
    if |files| > 0 {
      UploadsAsWrittenKeepFlag(UploadCompleteAsWritten(s, files[0]), files[1..]);
    }
  }

  /** As written the profile can never be completed from the first render,
   *  however long the bio and however many resumes are uploaded. */
  lemma NeverCompletesAsWritten(bio: string, files: seq<nat>)
    ensures Submit(UploadsAsWritten(Initial.(bio := bio), files)).None?
  {
    UploadsAsWrittenKeepFlag(Initial.(bio := bio), files);
  }

  /** As intended, one stored upload and a long enough bio are all that is
   *  needed to submit. */
  lemma SavedUploadOpensGate(bio: string, files: nat)
    requires |bio| >= MinCharacters && files > 0
    ensures Submit(Uploads(Initial.(bio := bio), [(files, true)])) == Some(bio)
  {
  }

  /** From the first render, the profile can only be completed after an
   *  upload the server stored. */
  lemma SubmitNeedsUpload(bio: string, uploads: seq<(nat, bool)>)
    ensures var s := Uploads(Initial.(bio := bio), uploads);
      Submit(s).Some? ==> exists k :: 0 <= k < |uploads| && uploads[k].0 > 0 && uploads[k].1
  {
    UploadsFlag(Initial.(bio := bio), uploads);
  }

  function Uploads(s: State, uploads: seq<(nat, bool)>): State
    decreases |uploads|
  {
    if |uploads| == 0 then s else Uploads(UploadComplete(s, uploads[0].0, uploads[0].1), uploads[1..])
  }

  lemma {:induction false} UploadsFlag(s: State, uploads: seq<(nat, bool)>)
    ensures Uploads(s, uploads).resumeUploaded ==>
      s.resumeUploaded || exists k :: 0 <= k < |uploads| && uploads[k].0 > 0 && uploads[k].1
    decreases |uploads|
  {
    if |uploads| > 0 {
      var s' := UploadComplete(s, uploads[0].0, uploads[0].1);
      UploadsFlag(s', uploads[1..]);
      if Uploads(s, uploads).resumeUploaded && !s.resumeUploaded && !(uploads[0].0 > 0 && uploads[0].1) {
        var k :| 0 <= k < |uploads[1..]| && uploads[1..][k].0 > 0 && uploads[1..][k].1;
        assert uploads[k + 1] == uploads[1..][k];
      }
    }
  }
}
