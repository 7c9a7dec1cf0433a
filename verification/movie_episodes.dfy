/** The episode-list hook (src/pages/movie_management/hooks/useMovieEpisodes.ts): the
    local episode list and how each backend answer changes it. A reply is the envelope
    the service resolved with, or `Failure` when the call threw; the hook catches both
    a thrown error and a `success: false` envelope, and then reports `false`. */
module MovieEpisodes {
  import opened Wrappers
  import opened ApiTypes
  import opened Lists

  /** Whether the reply is a resolved envelope with `success: true`. */
  predicate Succeeded<T>(reply: Outcome<ApiResponse<T>>) {
    reply.Success? && reply.value.success
  }

  /** `loadEpisodes`: there is no endpoint to list a movie's episodes, so whatever the
      movie id, the episodes listed before are discarded and the list is emptied. */
  function LoadEpisodes(episodes: seq<EpisodeResponse>, movieId: string): (r: seq<EpisodeResponse>)
    ensures |r| == 0
    ensures forall e :: e in episodes ==> e !in r
  {
    []
  }

  /** `handleAddEpisode`: on success the returned episode is appended and `true`
      reported; otherwise the list is kept and `false` reported. */
  function HandleAddEpisode(episodes: seq<EpisodeResponse>, reply: Outcome<ApiResponse<EpisodeResponse>>)
    : (r: (seq<EpisodeResponse>, bool))
    ensures r.1 <==> Succeeded(reply)
    ensures r.1 ==> |r.0| == |episodes| + 1 && r.0[..|episodes|] == episodes && r.0[|episodes|] == reply.value.data
    ensures !r.1 ==> r.0 == episodes
  {
    if Succeeded(reply) then (episodes + [reply.value.data], true) else (episodes, false)
  }

  /** Whether an episode has the given id. */
  function HasId(id: string): EpisodeResponse -> bool {
    (e: EpisodeResponse) => e.id == id
  }

  function EpisodeId(e: EpisodeResponse): string { e.id }

  /** `handleUpdateEpisode`: on success every episode with the request's id is replaced
      by the returned one, the others stay where they are; otherwise nothing changes. */
  function HandleUpdateEpisode(
    episodes: seq<EpisodeResponse>, request: EpisodeUpdateRequest, reply: Outcome<ApiResponse<EpisodeResponse>>)
    : (r: (seq<EpisodeResponse>, bool))
    ensures r.1 <==> Succeeded(reply)
    ensures |r.0| == |episodes|
    ensures r.1 ==> forall i :: 0 <= i < |episodes| ==>
                      r.0[i] == if episodes[i].id == request.id then reply.value.data else episodes[i]
    ensures !r.1 ==> r.0 == episodes
  {
    if Succeeded(reply) then
      (MapWhere(episodes, HasId(request.id), (e: EpisodeResponse) => reply.value.data), true)
    else (episodes, false)
  }

  /** `handleDeleteEpisode`: on success every episode with the id goes and the others
      stay in order; otherwise nothing changes. */
  function HandleDeleteEpisode(episodes: seq<EpisodeResponse>, episodeId: string, reply: Outcome<ApiResponse<()>>)
    : (r: (seq<EpisodeResponse>, bool))
    ensures r.1 <==> Succeeded(reply)
    ensures r.1 ==> (forall i :: 0 <= i < |r.0| ==> r.0[i].id != episodeId)
                    && (forall e: EpisodeResponse :: e.id != episodeId ==> (e in r.0 <==> e in episodes))
                    && Subsequence(r.0, episodes)
    ensures !r.1 ==> r.0 == episodes
  {
    if Succeeded(reply) then
      var kept := Filter(episodes, KeyIsNot(EpisodeId, episodeId));
      FilterIsSubsequence(episodes, KeyIsNot(EpisodeId, episodeId));
      assert forall e: EpisodeResponse :: e.id != episodeId ==> (e in kept <==> e in episodes) by {
        forall e: EpisodeResponse | e.id != episodeId ensures e in kept <==> e in episodes {
          FilterMembers(episodes, KeyIsNot(EpisodeId, episodeId), e);
        }
      }
      (kept, true)
    else (episodes, false)
  }

  /** Adding an episode whose id is new and then deleting that id gives back the list. */
  lemma AddThenDeleteRestores(
    episodes: seq<EpisodeResponse>, added: Outcome<ApiResponse<EpisodeResponse>>, deleted: Outcome<ApiResponse<()>>)
    requires Succeeded(added) && Succeeded(deleted)
    requires forall i :: 0 <= i < |episodes| ==> episodes[i].id != added.value.data.id
    ensures var id := added.value.data.id;
            HandleDeleteEpisode(HandleAddEpisode(episodes, added).0, id, deleted).0 == episodes
  {
    var e := added.value.data;
    FilterConcat(episodes, [e], KeyIsNot(EpisodeId, e.id));
    FilterKeepsAll(episodes, KeyIsNot(EpisodeId, e.id));
    assert Filter([e], KeyIsNot(EpisodeId, e.id)) == [];
  }

  /** A second successful delete of the same id changes nothing more. */
  lemma DeleteTwiceIsDeleteOnce(episodes: seq<EpisodeResponse>, episodeId: string, reply: Outcome<ApiResponse<()>>)
    requires Succeeded(reply)
    ensures var once := HandleDeleteEpisode(episodes, episodeId, reply).0;
            HandleDeleteEpisode(once, episodeId, reply).0 == once
  {
    var once := HandleDeleteEpisode(episodes, episodeId, reply).0;
    FilterKeepsAll(once, KeyIsNot(EpisodeId, episodeId));
  }

  /** Updating an id that is not listed leaves the list as it was, though the hook still
      reports success. */
  lemma UpdateOfUnlistedIdKeepsList(
    episodes: seq<EpisodeResponse>, request: EpisodeUpdateRequest, reply: Outcome<ApiResponse<EpisodeResponse>>)
    requires forall i :: 0 <= i < |episodes| ==> episodes[i].id != request.id
    ensures HandleUpdateEpisode(episodes, request, reply).0 == episodes
  {
    if Succeeded(reply) {
      MapWhereNoMatch(episodes, HasId(request.id), (e: EpisodeResponse) => reply.value.data);
    }
  }
}
