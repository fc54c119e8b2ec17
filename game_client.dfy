/** The game page's rule engine: the flags of the game manager, the points a
    click is worth, the consumable items, the countdown tick and the pause
    and end guards (frontend/js/game.js). Server replies are parameters, and
    the interval tick and the multiplier's expiry are explicit events. */
module GameClient {
  import opened Common
  import opened Sessions
  import ConfigTree
  import ShopClient
  import GameController

  /** The item ids `useItem` gives an effect to. */
  const TimeBonus := "time-bonus"
  const ScoreMultiplier := "score-multiplier"

  /** Seconds a `time-bonus` adds to the countdown. */
  const BonusSeconds := 30

  /** The points one click on an item of `itemType` is worth: the configured
      base points, 10 for a type the table does not have, doubled while the
      score multiplier is on. */
  function ClickPoints(itemType: string, doubled: bool): (points: int)
    ensures !doubled ==> points == (if itemType in ConfigTree.PointsPerItem then ConfigTree.PointsPerItem[itemType] else 10)
    ensures doubled ==> points == 2 * (if itemType in ConfigTree.PointsPerItem then ConfigTree.PointsPerItem[itemType] else 10)
    ensures points >= 10
  {
    var base := OrInt(if itemType in ConfigTree.PointsPerItem then Some(ConfigTree.PointsPerItem[itemType]) else None, 10);
    if doubled then base * 2 else base
  }

  /** The points the page sends for the item types it creates: pen 10, cup 15,
      book 20, each doubled under the multiplier; all pass the server's
      positive-points check. */
  lemma ClickPointsTable(doubled: bool)
    ensures ClickPoints("pen", doubled) == (if doubled then 20 else 10)
    ensures ClickPoints("cup", doubled) == (if doubled then 30 else 15)
    ensures ClickPoints("book", doubled) == (if doubled then 40 else 20)
    ensures forall t :: t !in ConfigTree.PointsPerItem ==> ClickPoints(t, doubled) == (if doubled then 20 else 10)
  {
  }

  /** The doubled value is always twice the plain one. */
  lemma MultiplierDoubles(itemType: string)
    ensures ClickPoints(itemType, true) == 2 * ClickPoints(itemType, false)
  {
  }

  /** The phase `startNextPhase` asks for: one past the current session's
      phase, or nothing without a session or with a falsy phase. */
  function NextPhase(current: Option<Row>): (p: Option<int>)
    ensures p.Some? <==> current.Some? && current.value.data.phase != 0
    ensures p.Some? ==> p.value == current.value.data.phase + 1
  {
    if current.Some? && current.value.data.phase != 0 then Some(current.value.data.phase + 1) else None
  }

  /** The next phase the server creates is worth exactly 100 points more than
      a phase started at its normal target. */
  lemma NextPhaseRaisesTarget(current: Row, now: int)
    requires current.data.phase > 0
    requires current.data.targetScore == GameController.TargetScoreFor(current.data.phase)
    ensures (var p := NextPhase(Some(current)).value;
             GameController.NewSessionData(current.data.userId, p, now).targetScore == current.data.targetScore + 100)
  {
  }

  /** The session with `delta` seconds added to its countdown. */
  function WithTime(r: Row, delta: int): (s: Row)
    ensures s.id == r.id && s.data.timeRemaining == r.data.timeRemaining + delta
    ensures s.data.(timeRemaining := r.data.timeRemaining) == r.data
  {
    r.(data := r.data.(timeRemaining := r.data.timeRemaining + delta))
  }

  /** The game manager's state. A running game always has a session. */
  class GameManager {
    var currentSession: Option<Row>
    var isGameActive: bool
    var isPaused: bool
    var isScoreMultiplierActive: bool
    var purchasedItems: seq<ShopClient.PurchasedItem>

    ghost predicate Valid()
      reads this
    {
      isGameActive ==> currentSession.Some?
    }

    constructor ()
      ensures Valid()
      ensures currentSession.None? && !isGameActive && !isPaused && !isScoreMultiplierActive
      ensures purchasedItems == []
    {
      currentSession := None;
      isGameActive := false;
      isPaused := false;
      isScoreMultiplierActive := false;
      purchasedItems := [];
    }

    /** `setupGameSession`: with a session, the game runs unpaused with the
        multiplier off and the unused inventory loaded; without one,
        nothing happens. */
    method SetupGameSession(inventory: ShopClient.Inventory?)
      requires Valid()
      modifies this
      ensures Valid()
      ensures old(currentSession).None? ==> unchanged(this)
      ensures (old(currentSession).Some? ==>
                && isGameActive && !isPaused && !isScoreMultiplierActive
                && currentSession == old(currentSession)
                && purchasedItems == (if inventory == null then [] else inventory.GetPurchasedItems()))
    {
      if currentSession.None? {
        return;
      }
      purchasedItems := if inventory == null then [] else inventory.GetPurchasedItems();
      isGameActive := true;
      isPaused := false;
      isScoreMultiplierActive := false;
    }

    /** `startNewGame`, given whether a user is logged in and the server's
        reply: a successful reply becomes the current session and the game is
        set up; otherwise nothing changes. */
    method StartNewGame(loggedIn: bool, reply: Response<Row>, inventory: ShopClient.Inventory?)
      requires Valid()
      modifies this
      ensures Valid()
      ensures !loggedIn || !reply.Ok? ==> unchanged(this)
      ensures (loggedIn && reply.Ok? ==>
                && currentSession == Some(reply.value)
                && isGameActive && !isPaused && !isScoreMultiplierActive
                && purchasedItems == (if inventory == null then [] else inventory.GetPurchasedItems()))
    {
      if !loggedIn || !reply.Ok? {
        return;
      }
      currentSession := Some(reply.value);
      SetupGameSession(inventory);
      purchasedItems := if inventory == null then [] else inventory.GetPurchasedItems();
    }

    /** `startNextPhase`: asks for the phase after the current one and starts
        the game the server answers with; without a current phase nothing is
        asked and nothing changes. */
    method StartNextPhase(loggedIn: bool, reply: Response<Row>, inventory: ShopClient.Inventory?)
      returns (requested: Option<int>)
      requires Valid()
      modifies this
      ensures Valid()
      ensures requested == NextPhase(old(currentSession))
      ensures requested.None? || !loggedIn || !reply.Ok? ==> unchanged(this)
      ensures (requested.Some? && loggedIn && reply.Ok? ==>
                && currentSession == Some(reply.value)
                && isGameActive && !isPaused && !isScoreMultiplierActive
                && purchasedItems == (if inventory == null then [] else inventory.GetPurchasedItems()))
    {
      requested := NextPhase(currentSession);
      if requested.None? {
        return;
      }
      StartNewGame(loggedIn, reply, inventory);
    }

    /** `endGame`: only a running game ends, so a game ends at most once; the
        result reports whether this call ended it. */
    method EndGame(victory: bool) returns (ended: bool)
      requires Valid()
      modifies this
      ensures Valid()
      ensures ended <==> old(isGameActive)
      ensures !isGameActive
      ensures currentSession == old(currentSession) && isPaused == old(isPaused)
      ensures isScoreMultiplierActive == old(isScoreMultiplierActive) && purchasedItems == old(purchasedItems)
    {
      if !isGameActive {
        return false;
      }
      isGameActive := false;
      ended := true;
    }

    /** One interval tick: while the game runs unpaused the countdown drops
        by one and, once it is at or below zero, the game ends as a defeat;
        otherwise the tick does nothing. */
    method Tick() returns (ended: bool)
      requires Valid()
      modifies this
      ensures Valid()
      ensures !old(isGameActive) || old(isPaused) ==> unchanged(this) && !ended
      ensures (old(isGameActive) && !old(isPaused) ==>
                && currentSession == Some(WithTime(old(currentSession).value, -1))
                && (ended <==> old(currentSession).value.data.timeRemaining - 1 <= 0)
                && (isGameActive <==> !ended)
                && !isPaused && isScoreMultiplierActive == old(isScoreMultiplierActive)
                && purchasedItems == old(purchasedItems))
    {
      ended := false;
      if !isPaused && isGameActive {
        currentSession := Some(WithTime(currentSession.value, -1));
        if currentSession.value.data.timeRemaining <= 0 {
          ended := EndGame(false);
        }
      }
    }

    /** `handleGameAreaClick`, given the type of the item clicked (None when
        the click hit no item) and the server's reply to the points sent:
        nothing is sent while the game is stopped or paused or when no item
        was hit; a successful reply becomes the current session and ends the
        game as a victory once its score reaches the target. */
    method HandleGameAreaClick(clicked: Option<string>, reply: Response<Row>) returns (sent: Option<int>, ended: bool)
      requires Valid()
      modifies this
      ensures Valid()
      ensures !old(isGameActive) || old(isPaused) || clicked.None? ==> sent.None? && !ended && unchanged(this)
      ensures (old(isGameActive) && !old(isPaused) && clicked.Some? ==>
                sent == Some(ClickPoints(clicked.value, old(isScoreMultiplierActive))))
      ensures (old(isGameActive) && !old(isPaused) && clicked.Some? && !reply.Ok? ==> !ended && unchanged(this))
      ensures (old(isGameActive) && !old(isPaused) && clicked.Some? && reply.Ok? ==>
                && currentSession == Some(reply.value)
                && (ended <==> reply.value.data.score >= reply.value.data.targetScore)
                && (isGameActive <==> !ended))
      ensures isPaused == old(isPaused) && isScoreMultiplierActive == old(isScoreMultiplierActive)
      ensures purchasedItems == old(purchasedItems)
    {
      sent := None;
      ended := false;
      if !isGameActive || isPaused {
        return;
      }
      if clicked.None? {
        return;
      }
      sent := Some(ClickPoints(clicked.value, isScoreMultiplierActive));
      if reply.Ok? {
        currentSession := Some(reply.value);
        if reply.value.data.score >= reply.value.data.targetScore {
          ended := EndGame(true);
        }
      }
    }

    /** `useItem`: while the game runs unpaused, a `time-bonus` adds 30
        seconds and a `score-multiplier` turns the multiplier on unless it is
        already on; an item that takes effect is marked used in the
        inventory. Any other case changes nothing. */
    method UseItem(itemId: string, inventory: ShopClient.Inventory, stamp: string) returns (used: bool)
      requires Valid()
      modifies this, inventory
      ensures Valid()
      ensures (used <==> old(isGameActive) && !old(isPaused)
                         && (itemId == TimeBonus || (itemId == ScoreMultiplier && !old(isScoreMultiplierActive))))
      ensures !used ==> unchanged(this) && unchanged(inventory)
      ensures used ==> inventory.items == ShopClient.AfterMark(old(inventory.items), itemId, stamp)
      ensures (used && itemId == TimeBonus ==>
                && currentSession == Some(WithTime(old(currentSession).value, BonusSeconds))
                && isScoreMultiplierActive == old(isScoreMultiplierActive))
      ensures used && itemId == ScoreMultiplier ==> isScoreMultiplierActive && currentSession == old(currentSession)
      ensures isGameActive == old(isGameActive) && isPaused == old(isPaused) && purchasedItems == old(purchasedItems)
    {
      if !isGameActive || isPaused {
        return false;
      }
      if itemId == TimeBonus {
        currentSession := Some(WithTime(currentSession.value, BonusSeconds));
      } else if itemId == ScoreMultiplier {
        if isScoreMultiplierActive {
          return false;
        }
        isScoreMultiplierActive := true;
      } else {
        return false;
      }
      var _ := inventory.MarkItemAsUsed(itemId, stamp);
      used := true;
    }

    /** The multiplier's 60-second timer firing: the multiplier goes off,
        whatever the game's state. */
    method MultiplierExpired()
      requires Valid()
      modifies this
      ensures Valid()
      ensures !isScoreMultiplierActive
      ensures currentSession == old(currentSession) && isGameActive == old(isGameActive) && isPaused == old(isPaused)
      ensures purchasedItems == old(purchasedItems)
    {
      isScoreMultiplierActive := false;
    }

    /** `togglePause`: flips the pause flag of a running game; a stopped game
        is left alone. */
    method TogglePause()
      requires Valid()
      modifies this
      ensures Valid()
      ensures !old(isGameActive) ==> unchanged(this)
      ensures old(isGameActive) ==> isPaused == !old(isPaused)
      ensures currentSession == old(currentSession) && isGameActive == old(isGameActive)
      ensures isScoreMultiplierActive == old(isScoreMultiplierActive) && purchasedItems == old(purchasedItems)
    {
      if !isGameActive {
        return;
      }
      isPaused := !isPaused;
    }

    /** `pauseGame`: pauses unconditionally. */
    method PauseGame()
      requires Valid()
      modifies this
      ensures Valid()
      ensures isPaused
      ensures currentSession == old(currentSession) && isGameActive == old(isGameActive)
      ensures isScoreMultiplierActive == old(isScoreMultiplierActive) && purchasedItems == old(purchasedItems)
    {
      isPaused := true;
    }

    /** `resumeGame`: unpauses unconditionally. */
    method ResumeGame()
      requires Valid()
      modifies this
      ensures Valid()
      ensures !isPaused
      ensures currentSession == old(currentSession) && isGameActive == old(isGameActive)
      ensures isScoreMultiplierActive == old(isScoreMultiplierActive) && purchasedItems == old(purchasedItems)
    {
      isPaused := false;
    }

    /** `goHome`: an unpaused game is paused through `togglePause`, so a
        running game is left paused and a stopped one keeps its flags. */
    method GoHome()
      requires Valid()
      modifies this
      ensures Valid()
      ensures old(isGameActive) ==> isPaused
      ensures !old(isGameActive) ==> unchanged(this)
      ensures currentSession == old(currentSession) && isGameActive == old(isGameActive)
      ensures isScoreMultiplierActive == old(isScoreMultiplierActive) && purchasedItems == old(purchasedItems)
    {
      if !isPaused {
        TogglePause();
      }
    }

    /** `exitGame`: a running game is stopped, unpaused and forgets its
        session; a stopped game is left alone. */
    method ExitGame()
      requires Valid()
      modifies this
      ensures Valid()
      ensures !old(isGameActive) ==> unchanged(this)
      ensures old(isGameActive) ==> !isGameActive && !isPaused && currentSession.None?
      ensures isScoreMultiplierActive == old(isScoreMultiplierActive) && purchasedItems == old(purchasedItems)
    {
      if !isGameActive {
        return;
      }
      isGameActive := false;
      isPaused := false;
      currentSession := None;
    }
  }
}
