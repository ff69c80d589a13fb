/** The session component of App.tsx: the four pieces of state it holds and
    the callbacks that replace them. The flavour-text service is outside the
    model: `HandleScoreUpdate` returns the request it would send, and
    `ReceiveSurvivorMessage` is the callback that runs when a reply arrives,
    with the reply text, the random id and the clock reading as parameters. */
module AppSession {
  import opened Types
  import Constants
  import Session
  import ScoreDisplay

  class App {
    var gameState: GameState
    var player: PlayerState
    /** Rounds left in the current weapon, as last reported by the engine. */
    var ammo: int
    /** Radio messages, newest first. */
    var messages: seq<GameMessage>

    /** The feed never holds more than five messages. */
    ghost predicate Valid()
      reads this
    {
      |messages| <= Session.FeedCapacity
    }

    /** The initial `useState` values: title screen, a fresh player, a full
        pistol magazine and an empty feed. */
    constructor ()
      ensures Valid()
      ensures gameState == Start
      ensures player == Session.FreshPlayer
      ensures ammo == Session.FreshAmmo()
      ensures messages == []
    {
      gameState := Start;
      player := Session.FreshPlayer;
      ammo := Session.FreshAmmo();
      messages := [];
    }

    /** `handlePlayerUpdate`: the fields present in `u` are overwritten;
        nothing else changes. */
    method HandlePlayerUpdate(u: PlayerUpdate)
      requires Valid()
      modifies this`player
      ensures Valid()
      ensures player == Session.Merge(old(player), u)
    {
      player := Session.Merge(player, u);
    }

    /** `handleScoreUpdate`: adds `points` to the score and returns the
        flavour-text request the step triggers, if any. The feed is not
        touched here: a reply arrives later through `ReceiveSurvivorMessage`. */
    method HandleScoreUpdate(points: int) returns (request: Option<int>)
      requires Valid()
      modifies this`player
      ensures Valid()
      ensures player == Session.AddScore(old(player), points)
      ensures request == Session.SurvivorRequest(old(player).score, points)
    {
      var prev := player;
      var newScore := prev.score + points;
      if Session.Hundreds(newScore) > Session.Hundreds(prev.score) {
        request := Some(newScore);
      } else {
        request := None;
      }
      player := prev.(score := newScore);
    }

    /** The reply callback of the flavour-text request: the new message goes
        to the head of the feed, which keeps its five newest entries. */
    method ReceiveSurvivorMessage(id: string, text: string, timestamp: int)
      requires Valid()
      modifies this`messages
      ensures Valid()
      ensures messages == Session.PushMessage(old(messages), GameMessage(id, text, timestamp))
      ensures messages[0].text == text
    {
      messages := [GameMessage(id, text, timestamp)] + Session.Take(messages, Session.KeptOlderMessages);
    }

    /** `handleAmmoUpdate`: the shown ammo becomes whatever the engine reports. */
    method HandleAmmoUpdate(newAmmo: int)
      requires Valid()
      modifies this`ammo
      ensures Valid()
      ensures ammo == newAmmo
    {
      ammo := newAmmo;
    }

    /** The engine's `onGameStateChange` callback, `setGameState`. */
    method SetGameState(s: GameState)
      requires Valid()
      modifies this`gameState
      ensures Valid()
      ensures gameState == s
    {
      gameState := s;
    }

    /** `startGame`: playing, a fresh player and a full pistol magazine. The
        message feed is kept. */
    method StartGame()
      requires Valid()
      modifies this`gameState, this`player, this`ammo
      ensures Valid()
      ensures gameState == Playing
      ensures player == Session.FreshPlayer
      ensures ammo == Session.FreshAmmo()
    {
      gameState := Playing;
      player := Session.FreshPlayer;
      ammo := Session.FreshAmmo();
    }

    /** The HUD's score line for the current player. */
    function ScoreText(): (s: string)
      reads this
      ensures player.score >= 0 ==> ScoreDisplay.AllDigits(s)
      ensures player.score >= 0 ==> ScoreDisplay.ParseDigits(s) == player.score
      ensures 0 <= player.score < 1000000 ==> |s| == ScoreDisplay.ScoreWidth
      ensures player.score >= 100000 ==> s == ScoreDisplay.Digits(player.score)
    {
      ScoreDisplay.FormatScore(player.score)
    }
  }

  /** A session as the engine drives it: start, a kill from 80 to 120
      points, and the radio reply to the one request it issues. */
  method ExampleScoreAndReply(id: string, text: string, now: int)
  {
    var app := new App();
    app.StartGame();
    var r := app.HandleScoreUpdate(80);
    assert r == None by {
      assert Session.Hundreds(80) == Session.Hundreds(0);
    }
    r := app.HandleScoreUpdate(40);
    assert r == Some(120) by {
      Session.OneRequestFrom80To120();
    }
    app.ReceiveSurvivorMessage(id, text, now);
    assert app.messages == [GameMessage(id, text, now)];
    assert app.player.score == 120;
  }

  /** Damage, a dash, game over and a restart that keeps the feed. */
  method ExampleDamageDashRestart(id: string, text: string, now: int)
  {
    var app := new App();
    app.StartGame();
    app.ReceiveSurvivorMessage(id, text, now);
    app.HandlePlayerUpdate(Session.HealthChange(40));
    app.HandlePlayerUpdate(Session.DashChange(true, 2000));
    assert app.player == PlayerState(40, 100, 0, true, 2000, Pistol);
    app.SetGameState(GameOver);
    app.StartGame();
    assert app.player == Session.FreshPlayer && |app.messages| == 1;
  }
}
