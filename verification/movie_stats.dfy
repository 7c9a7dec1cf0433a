/** The cards above the movie list
    (src/pages/movie_management/components/MovieStatsOverview.tsx): the number of movies
    on the page, their total and rounded average views, and how many are from the
    current year. The current year is a parameter in place of the clock. */
module MovieStatsOverview {
  import opened ApiTypes
  import opened Aggregates
  import opened Lists

  /** The view counts of the movies, in order. */
  function Views(movies: seq<MovieResponse>): (r: seq<nat>)
    ensures |r| == |movies| && forall i :: 0 <= i < |movies| ==> r[i] == movies[i].view
  {
    seq(|movies|, i requires 0 <= i < |movies| => movies[i].view)
  }

  /** Whether a movie is from the given year. */
  function FromYear(year: int): MovieResponse -> bool {
    (m: MovieResponse) => m.year == year
  }

  /** Whether a movie is from another year. */
  function NotFromYear(year: int): MovieResponse -> bool {
    (m: MovieResponse) => m.year != year
  }

  datatype Overview = Overview(totalMovies: nat, totalViews: nat, averageViews: nat, currentYearMovies: nat)

  /** The card figures. The current-year count is the number of positions holding a
      movie of that year; it is at most the number of movies, and equals it exactly when
      every movie is from that year. */
  function OverviewOf(movies: seq<MovieResponse>, currentYear: int): (r: Overview)
    ensures r.totalMovies == |movies|
    ensures r.totalViews == Sum(Views(movies))
    ensures r.averageViews == RoundedAverage(r.totalViews, r.totalMovies)
    ensures r.currentYearMovies == |set i | 0 <= i < |movies| && movies[i].year == currentYear|
    ensures r.currentYearMovies <= r.totalMovies
    ensures r.currentYearMovies == r.totalMovies <==> forall i :: 0 <= i < |movies| ==> movies[i].year == currentYear
  {
    var recent := Filter(movies, FromYear(currentYear));
    FilterSplitCount(movies, FromYear(currentYear), NotFromYear(currentYear));
    FilterCountsPositions(movies, FromYear(currentYear));
    assert Positions(movies, FromYear(currentYear)) == set i | 0 <= i < |movies| && movies[i].year == currentYear;
    assert |recent| == |movies| ==> forall i :: 0 <= i < |movies| ==> movies[i].year == currentYear by {
      forall i | 0 <= i < |movies| && |recent| == |movies| ensures movies[i].year == currentYear {
        FilterMembers(movies, NotFromYear(currentYear), movies[i]);
      }
    }
    assert (forall i :: 0 <= i < |movies| ==> movies[i].year == currentYear) ==> recent == movies by {
      if forall i :: 0 <= i < |movies| ==> movies[i].year == currentYear {
        FilterKeepsAll(movies, FromYear(currentYear));
      }
    }
    var total := Sum(Views(movies));
    Overview(|movies|, total, RoundedAverage(total, |movies|), |recent|)
  }

  /** The average views never exceed the most viewed movie's views, and no movie has more
      views than the total. */
  lemma AverageWithinViews(movies: seq<MovieResponse>, currentYear: int, most: nat)
    requires forall i :: 0 <= i < |movies| ==> movies[i].view <= most
    ensures OverviewOf(movies, currentYear).averageViews <= most
    ensures forall i :: 0 <= i < |movies| ==> movies[i].view <= OverviewOf(movies, currentYear).totalViews
  {
    var views := Views(movies);
    AverageAtMostBound(views, most);
    forall i | 0 <= i < |movies| ensures movies[i].view <= Sum(views) {
      ElementAtMostSum(views, i);
    }
  }

  /** The total views of two pages of movies add up. */
  lemma TotalViewsAddUp(a: seq<MovieResponse>, b: seq<MovieResponse>, currentYear: int)
    ensures OverviewOf(a + b, currentYear).totalViews
            == OverviewOf(a, currentYear).totalViews + OverviewOf(b, currentYear).totalViews
  {
    assert Views(a + b) == Views(a) + Views(b);
    SumConcat(Views(a), Views(b));
  }

  /** The current-year counts of two pages of movies add up. */
  lemma CurrentYearAddsUp(a: seq<MovieResponse>, b: seq<MovieResponse>, currentYear: int)
    ensures OverviewOf(a + b, currentYear).currentYearMovies
            == OverviewOf(a, currentYear).currentYearMovies + OverviewOf(b, currentYear).currentYearMovies
  {
    FilterConcat(a, b, FromYear(currentYear));
  }

  /** One movie counts for the current year exactly when its year is that year. */
  lemma OneMovieCountsByYear(m: MovieResponse, currentYear: int)
    ensures OverviewOf([m], currentYear).currentYearMovies == (if m.year == currentYear then 1 else 0)
  {
    assert Filter([m], FromYear(currentYear)) == (if m.year == currentYear then [m] else []);
  }
}
