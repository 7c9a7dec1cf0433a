/** The loading-state record of the dashboard (`useProgressiveLoading` in
    src/hooks/useProgressiveLoading.ts): each setter replaces one part of the record and
    keeps the rest; `reset` returns to the initial record. */
module ProgressiveLoading {
  import opened Wrappers

  /** `LoadingState`; `error` None is the source's `null`. */
  datatype LoadingState = LoadingState(isLoading: bool, stage: string, progress: int, error: Option<string>)

  /** The record the hook starts from and `reset` returns to. */
  const Initial := LoadingState(false, "Ready", 0, None)

  /** `setLoading`: only the loading flag changes. */
  function SetLoading(s: LoadingState, isLoading: bool): (r: LoadingState)
    ensures r.isLoading == isLoading
    ensures r.stage == s.stage && r.progress == s.progress && r.error == s.error
  {
    s.(isLoading := isLoading)
  }

  /** `setStage`: the stage changes, and the progress only when one is given. */
  function SetStage(s: LoadingState, stage: string, progress: Option<int>): (r: LoadingState)
    ensures r.stage == stage
    ensures r.progress == progress.GetOr(s.progress)
    ensures progress.None? ==> r.progress == s.progress
    ensures r.isLoading == s.isLoading && r.error == s.error
  {
    s.(stage := stage, progress := progress.GetOr(s.progress))
  }

  /** `setProgress`: only the progress changes. */
  function SetProgress(s: LoadingState, progress: int): (r: LoadingState)
    ensures r.progress == progress
    ensures r.isLoading == s.isLoading && r.stage == s.stage && r.error == s.error
  {
    s.(progress := progress)
  }

  /** `setError`: only the error changes; None clears it. */
  function SetError(s: LoadingState, error: Option<string>): (r: LoadingState)
    ensures r.error == error
    ensures r.isLoading == s.isLoading && r.stage == s.stage && r.progress == s.progress
  {
    s.(error := error)
  }

  /** `reset`: the initial record, whatever came before. */
  function Reset(s: LoadingState): (r: LoadingState)
    ensures !r.isLoading && r.stage == "Ready" && r.progress == 0 && r.error.None?
  {
    Initial
  }

  /** Setting a stage with a progress is setting the stage alone and then the progress. */
  lemma StageWithProgressSplits(s: LoadingState, stage: string, progress: int)
    ensures SetStage(s, stage, Some(progress)) == SetProgress(SetStage(s, stage, None), progress)
  {
  }

  /** The setters touch separate parts of the record, so their order does not matter. */
  lemma SettersCommute(s: LoadingState, loading: bool, progress: int, error: Option<string>)
    ensures SetLoading(SetProgress(s, progress), loading) == SetProgress(SetLoading(s, loading), progress)
    ensures SetError(SetProgress(s, progress), error) == SetProgress(SetError(s, error), progress)
    ensures SetError(SetLoading(s, loading), error) == SetLoading(SetError(s, error), loading)
  {
  }

  /** Setting a part to the value it already has changes nothing, and setting the same
      part twice keeps the later value. */
  lemma SettersOverwrite(s: LoadingState, a: int, b: int)
    ensures SetProgress(s, s.progress) == s
    ensures SetProgress(SetProgress(s, a), b) == SetProgress(s, b)
    ensures SetLoading(s, s.isLoading) == s && SetError(s, s.error) == s
  {
  }

  /** Whatever the setters did, `reset` gives back the record the hook started with. */
  lemma ResetForgetsEverything(s: LoadingState, stage: string, progress: int, error: string)
    ensures Reset(SetError(SetStage(SetLoading(s, true), stage, Some(progress)), Some(error))) == Initial
    ensures Reset(Initial) == Initial
  {
  }
}
