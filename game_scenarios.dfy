/** Sessions driven through `GameModel` the way the editor page drives it:
    each method builds its models on a given store and states what the
    sequence of calls leaves behind. */
module Scenarios {
  import opened Storage
  import opened Catalog
  import opened Countdown
  import opened Game

  /** A page reload after `gameStart`: a second model built on the store the
      first one wrote and brought up with `gameUpdate` resumes the session.
      The resumed coarse timer is the configured duration read from
      "gameTimer", while the session that wrote it has its timer at 0; the
      full duration is read from "timer", a key no session writes, so it is
      whatever that key held before. */
  method RecoverAfterStart(catalog: seq<ChallengeConfig>, store: Store, p: GameSetup)
    returns (g: GameModel, h: GameModel)
    requires CatalogOk(catalog)
    ensures g.timer == 0 && g.fullTime == p.time && g.progressTicker == 0 && !g.intervalActive
    ensures h.timer == p.time && h.progressTicker == p.time * TICK
    ensures h.fullTime == StoredNumber(store, Timer)
    ensures h.start && !h.finish && h.intervalActive && NoLeak(h.Clock())
    ensures h.userName == p.userName && h.code == StartCode
    ensures h.score == 0 && h.level == 0
  {
    g := new GameModel(catalog, store);
    g.GameStart(p);
    ParseIntToString(p.time);
    ParseIntToString(0);
    h := new GameModel(catalog, g.store);
    h.GameUpdate();
  }

  /** The same reload carries the selected challenge over, whatever the
      store held before and even when the entry's name is empty (then the
      stored name is skipped and both models fall back to the first entry). */
  method RecoverKeepsChallenge(catalog: seq<ChallengeConfig>, store: Store, p: GameSetup)
    returns (g: GameModel, h: GameModel)
    requires CatalogOk(catalog)
    ensures h.challengeConfig == g.challengeConfig && g.challengeConfig in catalog
  {
    g := new GameModel(catalog, store);
    g.GameStart(p);
    RestoredEmptyName(catalog, store, catalog[0]);
    h := new GameModel(catalog, g.store);
    RestoreReselects(catalog, g.store, g.challengeConfig, catalog[0]);
    RestoreReselects(catalog, g.store, g.challengeConfig, h.challengeConfig);
    h.GameUpdate();
  }

  /** `gameUpdate` on a model that already holds a running callback (after
      an edit started one) starts a second one and overwrites the handle:
      two callbacks are scheduled and only one can be cleared. */
  method RecoverWhileRunningLeaks(catalog: seq<ChallengeConfig>, store: Store, p: GameSetup, code: string)
    returns (g: GameModel)
    requires CatalogOk(catalog)
    ensures g.intervals == 2 && g.intervalActive && !NoLeak(g.Clock())
  {
    g := new GameModel(catalog, store);
    g.GameStart(p);
    g.Update(code);
    g.GameUpdate();
  }

  /** A session started with a duration of 0 seconds: the first edit
      starts a callback whose first run expires. The score and level are
      zeroed and persisted and the callback is cleared, but the session is
      still running and not finished: nothing marks it over. */
  method ExpireAfterEdit(catalog: seq<ChallengeConfig>, store: Store, name: string, code: string)
    returns (g: GameModel)
    requires CatalogOk(catalog)
    ensures g.score == 0 && g.level == 0
    ensures Score in g.store && g.store[Score] == "0" && Level in g.store && g.store[Level] == "0"
    ensures !g.intervalActive && g.intervals == 0
    ensures g.start && !g.finish
  {
    g := new GameModel(catalog, store);
    g.GameStart(GameSetup(name, 0));
    g.Update(code);
    g.Fire();
  }

  /** `gameStart` writes a score of 0 to the store but leaves the score
      field alone: a score earned before the start is still shown. */
  method StartKeepsScore(catalog: seq<ChallengeConfig>, store: Store, p: GameSetup)
    returns (g: GameModel)
    requires CatalogOk(catalog)
    ensures g.score == 120 && Score in g.store && g.store[Score] == "0"
    ensures g.level == 0 && g.start
  {
    g := new GameModel(catalog, store);
    g.UpdateScore(120);
    g.GameStart(p);
  }

  /** The level follows the score in steps of 50 up to 250; a score of 300
      asks for level 6, which the setter ignores. */
  method ScoreLevels(catalog: seq<ChallengeConfig>, store: Store) returns (g: GameModel)
    requires CatalogOk(catalog)
    ensures g.score == 300 && g.level == 5
    ensures Score in g.store && g.store[Score] == "300" && Level in g.store && g.store[Level] == "5"
  {
    g := new GameModel(catalog, store);
    g.UpdateScore(250);
    g.UpdateScore(300);
  }

  /** `dispose` after an edit started a callback: the idle defaults
      return, the session keys leave the store, the held callback is
      cleared, and a second `dispose` changes nothing. */
  method DisposeTwice(catalog: seq<ChallengeConfig>, store: Store, code: string)
    returns (g: GameModel, once: Store)
    requires CatalogOk(catalog)
    ensures once == g.store && g.store.Keys !! SessionKeys
    ensures !g.start && g.finish && g.timer == 0 && g.score == 0 && g.code == StartCode
    ensures !g.intervalActive && g.intervals == 0
  {
    g := new GameModel(catalog, store);
    g.Update(code);
    g.Dispose();
    once := g.store;
    g.Dispose();
  }

  /** `dispose` leaves the stored challenge and the in-memory level: after
      a score of 100 the level is still 2 while its key is gone. */
  method DisposeKeepsChallenge(catalog: seq<ChallengeConfig>, store: Store, p: GameSetup)
    returns (g: GameModel)
    requires CatalogOk(catalog)
    ensures Challenge in g.store && g.store[Challenge] == g.challengeConfig.name
    ensures g.level == 2 && Level !in g.store
  {
    g := new GameModel(catalog, store);
    g.GameStart(p);
    g.UpdateScore(100);
    g.Dispose();
  }
}
