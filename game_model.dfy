/** `GameModel`, the session engine: an object whose methods update its
    fields and the store in place, in the order the source does. Each
    method's `modifies` clause names exactly the fields it may change; every
    other field keeps its value. */
module Game {
  import opened Storage
  import opened Catalog
  import opened Countdown

  /** `START_CODE`: the editor's starting HTML skeleton. */
  const StartCode: string := "<html>\n  <head>\n    <style type=\"text/css\">\n       body {\n          padding: 0;\n          margin: 0;\n       }\n    </style>\n  </head>\n  <body>\n\n  </body>\n</html>"

  /** The keys `dispose` removes; Challenge is not among them. */
  const SessionKeys: set<Key> :=
    {Score, UserName, GameTimer, GameStarted, Code, Level, Finish}

  /** `GameSetup`: the player's name and the configured duration. */
  datatype GameSetup = GameSetup(userName: string, time: int)

  /** The challenge selected after looking up the stored name: a missing or
      empty name, or one that no catalog entry has, keeps `current`. */
  function RestoredChallenge(catalog: seq<ChallengeConfig>, store: Store, current: ChallengeConfig): ChallengeConfig {
    var name := StoredText(store, Challenge);
    if name != "" then
      match Find(catalog, name)
      case Some(i) => catalog[i]
      case None => current
    else current
  }

  /** A store whose "challenge" holds the name of a catalog entry selects
      that entry again. The lookup skips an empty name, so an entry named ""
      is only re-selected when it is already the current one. */
  lemma RestoreReselects(catalog: seq<ChallengeConfig>, store: Store, c: ChallengeConfig, current: ChallengeConfig)
    requires c in catalog && Challenge in store && store[Challenge] == c.name
    requires c.name == "" ==> current == c
    ensures RestoredChallenge(catalog, store, current) == c
  {
    if c.name != "" {
      var i :| 0 <= i < |catalog| && catalog[i] == c;
      assert Find(catalog, c.name).Some?;
    }
  }

  /** The lookup never selects an entry named "": a restored challenge with
      an empty name is the current one. */
  lemma RestoredEmptyName(catalog: seq<ChallengeConfig>, store: Store, current: ChallengeConfig)
    ensures RestoredChallenge(catalog, store, current).name == "" ==>
            RestoredChallenge(catalog, store, current) == current
  {
  }

  class GameModel {
    /** `challengesConfig`, the static catalog. */
    const catalog: seq<ChallengeConfig>

    var start: bool
    var finish: bool
    var userName: string
    var timer: int
    var fullTime: int
    /** `_timerInterval !== null` */
    var intervalActive: bool
    /** Interval callbacks still scheduled (see Countdown.Clock). */
    var intervals: nat
    var score: int
    var level: int
    var code: string
    var challengeConfig: ChallengeConfig
    var tick: int
    var progressTicker: int
    /** The `LocalStorageRepository` contents. */
    var store: Store

    /** The countdown fields as one value. */
    function Clock(): Clock
      reads this
    {
      Countdown.Clock(timer, tick, progressTicker, intervalActive, intervals)
    }

    ghost predicate Valid()
      reads this
    {
      CatalogOk(catalog) && level <= 5 && Countdown.Valid(Clock())
    }

    /** The constructor: idle defaults, then the stored challenge, if any,
        is selected. */
    constructor (catalog: seq<ChallengeConfig>, store: Store)
      requires CatalogOk(catalog)
      ensures Valid() && NoLeak(Clock()) && this.catalog == catalog
      ensures !start && finish && userName == "" && timer == 0 && fullTime == 0
      ensures !intervalActive && intervals == 0 && score == 0 && level == 0
      ensures code == StartCode && tick == TICK && progressTicker == 0
      ensures challengeConfig == RestoredChallenge(catalog, store, catalog[0])
      ensures challengeConfig in catalog
      ensures this.store == store
    {
      this.catalog := catalog;
      start := false;
      finish := true;
      userName := "";
      timer := 0;
      fullTime := 0;
      intervalActive := false;
      intervals := 0;
      score := 0;
      level := 0;
      code := StartCode;
      challengeConfig := catalog[0];
      tick := TICK;
      progressTicker := 0;
      this.store := store;
      new;
      RestoreChallenge();
    }

    /** `set level`: a value above 5 is ignored; any other value is kept
        and persisted. */
    method SetLevel(level: int)
      requires Valid()
      modifies this`level, this`store
      ensures Valid()
      ensures level <= 5 ==> this.level == level && store == old(store)[Level := IntToString(level)]
      ensures level > 5 ==> this.level == old(this.level) && store == old(store)
    {
      if level <= 5 {
        this.level := level;
        store := store[Level := IntToString(level)];
      }
    }

    /** `setChallenge`. */
    method SetChallenge(c: ChallengeConfig)
      requires Valid()
      modifies this`challengeConfig, this`store
      ensures Valid()
      ensures challengeConfig == c && store == old(store)[Challenge := c.name]
    {
      challengeConfig := c;
      store := store[Challenge := challengeConfig.name];
    }

    /** The stored-challenge lookup shared by the constructor and
        `gameUpdate`; re-selecting the entry rewrites the name already
        stored, so the store does not change. */
    method RestoreChallenge()
      requires Valid()
      modifies this`challengeConfig, this`store
      ensures Valid()
      ensures challengeConfig == RestoredChallenge(catalog, old(store), old(challengeConfig))
      ensures store == old(store)
    {
      var challengeName := StoredText(store, Challenge);
      if challengeName != "" {
        var found := Find(catalog, challengeName);
        if found.Some? {
          SetChallenge(catalog[found.value]);
          assert store == old(store);
        }
      }
    }

    /** `gameStart`. No interval is started: the interval fields are not
        in the frame. */
    method GameStart(p: GameSetup)
      requires Valid()
      modifies this`start, this`userName, this`timer, this`level, this`fullTime, this`finish,
               this`progressTicker, this`challengeConfig, this`store
      ensures Valid()
      ensures start && !finish && userName == p.userName && fullTime == p.time
      ensures timer == 0 && level == 0 && progressTicker == 0
      ensures challengeConfig == old(challengeConfig)
      ensures store == old(store)[Challenge := challengeConfig.name][UserName := p.userName]
                                 [GameTimer := IntToString(p.time)][Score := IntToString(0)]
                                 [Code := code][Level := IntToString(0)]
                                 [GameStarted := "true"][Finish := "false"]
    {
      start := true;
      userName := p.userName;
      timer := 0;
      level := 0;
      fullTime := p.time;
      finish := false;
      progressTicker := timer * TICK;
      SetChallenge(challengeConfig);
      store := store[UserName := p.userName];
      store := store[GameTimer := IntToString(p.time)];
      store := store[Score := IntToString(0)];
      store := store[Code := code];
      store := store[Level := IntToString(level)];
      store := store[GameStarted := "true"];
      store := store[Finish := BoolToString(finish)];
    }

    /** `gameUpdate`: rebuilds the session from the store, selects the
        stored challenge and, when the stored flags say a game is running,
        starts a callback without looking at the handle already held. */
    method GameUpdate()
      requires Valid()
      modifies this`start, this`timer, this`level, this`code, this`score, this`fullTime,
               this`userName, this`finish, this`progressTicker, this`challengeConfig, this`store,
               this`intervalActive, this`intervals
      ensures Valid()
      ensures start == StoredFlag(old(store), GameStarted)
      ensures finish == StoredFlag(old(store), Finish)
      ensures timer == StoredNumber(old(store), GameTimer) && progressTicker == timer * TICK
      ensures fullTime == StoredNumber(old(store), Timer)
      ensures score == StoredNumber(old(store), Score)
      ensures code == StoredText(old(store), Code) && userName == StoredText(old(store), UserName)
      ensures var stored := StoredNumber(old(store), Level);
              if stored <= 5 then level == stored && store == old(store)[Level := IntToString(stored)]
              else level == old(level) && store == old(store)
      ensures challengeConfig == RestoredChallenge(catalog, old(store), old(challengeConfig))
      ensures intervalActive == (old(intervalActive) || (start && !finish))
      ensures intervals == if start && !finish then old(intervals) + 1 else old(intervals)
    {
      RestoreSession();
      RestoreChallenge();
      if start && !finish {
        StartTimer();
      }
    }

    /** The first part of `gameUpdate`: each field is read back from the
        store, the level through its setter, and the ticker is set to TICK
        runs per stored second. The setter writes only the "level" key, so
        the reads after it see the values the store held on entry. */
    method RestoreSession()
      requires Valid()
      modifies this`start, this`timer, this`level, this`code, this`score, this`fullTime,
               this`userName, this`finish, this`progressTicker, this`store
      ensures Valid()
      ensures start == StoredFlag(old(store), GameStarted)
      ensures finish == StoredFlag(old(store), Finish)
      ensures timer == StoredNumber(old(store), GameTimer) && progressTicker == timer * TICK
      ensures fullTime == StoredNumber(old(store), Timer)
      ensures score == StoredNumber(old(store), Score)
      ensures code == StoredText(old(store), Code) && userName == StoredText(old(store), UserName)
      ensures var stored := StoredNumber(old(store), Level);
              if stored <= 5 then level == stored && store == old(store)[Level := IntToString(stored)]
              else level == old(level) && store == old(store)
    {
      var saved := store;
      start := StoredFlag(saved, GameStarted);
      timer := StoredNumber(saved, GameTimer);
      SetLevel(StoredNumber(saved, Level));
      code := StoredText(saved, Code);
      score := StoredNumber(saved, Score);
      fullTime := StoredNumber(saved, Timer);
      userName := StoredText(saved, UserName);
      finish := StoredFlag(saved, Finish);
      progressTicker := timer * TICK;
    }

    /** `startTimer`: the new callback's handle replaces any held one. */
    method StartTimer()
      requires Valid()
      modifies this`intervalActive, this`intervals
      ensures Valid()
      ensures Clock() == Countdown.StartTimer(old(Clock()))
    {
      intervals := intervals + 1;
      intervalActive := true;
    }

    /** One run of the callback `startTimer` schedules. On expiry the score
        and level are zeroed (the level through its setter, which persists
        it) and the held callback is cleared; `finish` is not touched. */
    method Fire()
      requires Valid() && intervals > 0
      modifies this`score, this`level, this`store, this`progressTicker, this`timer, this`tick,
               this`intervalActive, this`intervals
      ensures Valid()
      ensures Clock() == Countdown.Fire(old(Clock()))
      ensures Expiring(old(Clock())) ==>
                score == 0 && level == 0 && store == old(store)[Level := "0"][Score := "0"]
      ensures !Expiring(old(Clock())) ==> score == old(score) && level == old(level)
      ensures !Expiring(old(Clock())) ==>
                store == if old(tick) <= 0 then old(store)[GameTimer := IntToString(timer)] else old(store)
    {
      if progressTicker <= 0 && intervalActive {
        score := 0;
        SetLevel(0);
        store := store[Score := IntToString(0)];
        progressTicker := 0;
        intervals := intervals - 1;
        intervalActive := false;
        return;
      }
      progressTicker := progressTicker - 1;
      SetTick();
    }

    /** `setTick`: a new coarse second is persisted as it is taken. */
    method SetTick()
      requires Valid()
      modifies this`timer, this`tick, this`store
      ensures Valid()
      ensures Clock() == Countdown.SetTick(old(Clock()))
      ensures store == if old(tick) <= 0 then old(store)[GameTimer := IntToString(timer)] else old(store)
    {
      if tick <= 0 {
        timer := timer - 1;
        store := store[GameTimer := IntToString(timer)];
        tick := 5;
        return;
      }
      tick := tick - 1;
    }

    /** `update`: starts a callback only if no handle is held, stores the
        code and refills the countdown to the full duration. */
    method Update(code: string)
      requires Valid()
      modifies this`code, this`store, this`timer, this`progressTicker, this`intervalActive,
               this`intervals
      ensures Valid()
      ensures this.code == code && store == old(store)[Code := code]
      ensures Clock() == Refill(old(Clock()), fullTime)
    {
      if !intervalActive {
        StartTimer();
      }
      this.code := code;
      store := store[Code := code];
      timer := fullTime;
      progressTicker := fullTime * TICK;
    }

    /** `updateScore`: the level is `Math.floor(score / 50)` through the
        setter, so a score of 300 or more leaves the level as it was. For a
        positive divisor Dafny's `/` rounds down, as `Math.floor` does. */
    method UpdateScore(score: int)
      requires Valid()
      modifies this`score, this`level, this`store
      ensures Valid()
      ensures this.score == score
      ensures score / 50 <= 5 ==>
                level == score / 50 &&
                store == old(store)[Score := IntToString(score)][Level := IntToString(score / 50)]
      ensures score / 50 > 5 ==> level == old(level) && store == old(store)[Score := IntToString(score)]
    {
      this.score := score;
      store := store[Score := IntToString(score)];
      SetLevel(score / 50);
    }

    /** `dispose`: idle defaults, the seven session keys leave the store
        (one `removeKey` each, written here as one set difference), and a
        held callback is cleared. The level, the fine tick, the ticker and
        the stored challenge stay. */
    method Dispose()
      requires Valid()
      modifies this`start, this`userName, this`timer, this`finish, this`score, this`code,
               this`store, this`intervalActive, this`intervals
      ensures Valid()
      ensures !start && userName == "" && timer == 0 && finish && score == 0 && code == StartCode
      ensures store == old(store) - SessionKeys
      ensures !intervalActive
      ensures intervals == if old(intervalActive) then old(intervals) - 1 else old(intervals)
    {
      start := false;
      userName := "";
      timer := 0;
      finish := true;
      score := 0;
      code := StartCode;
      store := store - SessionKeys;
      if intervalActive {
        intervals := intervals - 1;
        intervalActive := false;
      }
    }
  }
}
