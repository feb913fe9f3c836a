/**
 One row of the episode mapping: where the episodes of an AniDB season go in a TVDB season.
 Arithmetic wraps at 64 bits.
 */
module EpisodeMaps {
  import opened Decimal
  import opened EpisodeCodec

  const TWO_64 := 0x1_0000_0000_0000_0000

  /** The sum or difference of a few integers, wrapped. */
  function Wrap(n: int): (r: Int)
    requires 3 * MIN_INT <= n <= 3 * MAX_INT
    ensures r == n || r == n - TWO_64 || r == n + TWO_64
  {
    if n > MAX_INT then n - TWO_64 else if n < MIN_INT then n + TWO_64 else n
  }

  /** A zero `start` or `end` leaves the range open on that side. A TVDB season of -1 stands for
      absolute order, of 0 for specials; an AniDB season of 0 for specials. */
  datatype EpisodeMap = EpisodeMap(
    aniDBId: string,
    tvdbId: string,
    aniDBSeason: Int,
    tvdbSeason: Int,
    start: Int,
    end: Int,
    offset: Int,
    before: Before,
    episodes: Episodes)

  function TVDBEpisodeStart(m: EpisodeMap): Int {
    Wrap(m.start + m.offset)
  }

  function TVDBEpisodeEnd(m: EpisodeMap): Int {
    Wrap(m.end + m.offset)
  }

  /** The TVDB episodes of an AniDB episode. */
  function ToTVDB(m: EpisodeMap, episode: Int): seq<Int> {
    if episode in m.episodes then m.episodes[episode]
    else if m.tvdbSeason == -1 then [Wrap(episode + m.offset)]
    else if m.end != 0 && episode > m.end then []
    else if m.start != 0 && episode < m.start then []
    else [Wrap(episode + m.offset)]
  }
}
