/** Indicators that point at teammates: one indicator per target, both kept
    in two lists of equal length. */
module IndicatorUi {
  import opened Wrappers
  import opened Teams
  import ChatUi

  /** The identity of a player's transform in the scene. */
  type TransformId = nat

  /** A position in the world. */
  datatype Vec3 = Vec3(x: real, y: real, z: real)

  /** A remote player as the indicators see it: its transform and its team. */
  datatype RemotePlayer = RemotePlayer(transform: TransformId, team: Team)

  /** An indicator image: a filled image in a team colour, turned towards the
      position of its target the last time it was updated (its fill and angle
      are computed from that position). */
  datatype Indicator = Indicator(color: Rgba, aim: Option<Vec3>)

  /** A fresh indicator for a player: the colour of the player's team, not yet aimed. */
  function NewIndicator(player: RemotePlayer): (r: Indicator)
  {
    Indicator(Data(player.team).Color(), None)
  }

  /** The players of players that are on team, in their order. */
  function Teammates(players: seq<RemotePlayer>, team: Team): (r: seq<RemotePlayer>)
    ensures |r| <= |players|
    ensures forall k | 0 <= k < |r| :: r[k].team == team
    ensures forall p :: p in r <==> p in players && p.team == team
  {
    if players == [] then []
    else if players[0].team == team then [players[0]] + Teammates(players[1..], team)
    else Teammates(players[1..], team)
  }

  /** Filtering a concatenation filters each part. */
  lemma {:induction false} TeammatesAppend(a: seq<RemotePlayer>, b: seq<RemotePlayer>, team: Team)
    ensures Teammates(a + b, team) == Teammates(a, team) + Teammates(b, team)
    decreases |a|
  {
    if a == [] {
      assert a + b == b;
    } else {
      assert (a + b)[0] == a[0];
      assert (a + b)[1..] == a[1..] + b;
      TeammatesAppend(a[1..], b, team);
    }
  }

  /** One more player either joins the teammates of a prefix or is skipped. */
  lemma TeammatesOfPrefix(players: seq<RemotePlayer>, i: nat, team: Team)
    requires i < |players|
    ensures Teammates(players[..i + 1], team)
         == Teammates(players[..i], team) + (if players[i].team == team then [players[i]] else [])
  {
    assert players[..i + 1] == players[..i] + [players[i]];
    TeammatesAppend(players[..i], [players[i]], team);
    assert [players[i]][1..] == [];
  }

  /** targets and indicators hold, position by position, the transform of
      each of mates and a new indicator for it. */
  ghost predicate Mirrors(targets: seq<TransformId>, indicators: seq<Option<Indicator>>, mates: seq<RemotePlayer>)
  {
    && |targets| == |mates| == |indicators|
    && (forall k | 0 <= k < |mates| :: targets[k] == mates[k].transform)
    && (forall k | 0 <= k < |mates| :: indicators[k] == Some(NewIndicator(mates[k])))
  }

  lemma MirrorsAdd(targets: seq<TransformId>, indicators: seq<Option<Indicator>>, mates: seq<RemotePlayer>, player: RemotePlayer)
    requires Mirrors(targets, indicators, mates)
    ensures Mirrors(targets + [player.transform], indicators + [Some(NewIndicator(player))], mates + [player])
  {
  }

  /** The effect of one update on an indicator: nothing when the target or
      the indicator is gone; otherwise it turns towards the target. */
  function UpdateIndicator(target: Option<Vec3>, indicator: Option<Indicator>): (r: Option<Indicator>)
    ensures target == None || indicator == None ==> r == indicator
    ensures r.Some? <==> indicator.Some?
    ensures target.Some? && indicator.Some? ==> r == Some(Indicator(indicator.value.color, target))
  {
    if target == None || indicator == None then indicator
    else Some(indicator.value.(aim := target))
  }

  /** The position of a target, or None if the game has removed it. */
  function Locate(scene: map<TransformId, Vec3>, target: TransformId): (r: Option<Vec3>)
    ensures r.Some? <==> target in scene
  {
    if target in scene then Some(scene[target]) else None
  }

  class PlayerIndicators {
    /** Whether the indicators are shown. */
    var shown: bool
    /** The transforms pointed at and their indicators; None marks an
        indicator the game has removed. */
    var targets: seq<TransformId>
    var indicators: seq<Option<Indicator>>

    ghost predicate Valid()
      reads this
    {
      |targets| == |indicators|
    }

    /** Targets and indicators are those of the teammates among players. */
    ghost predicate PointsAt(players: seq<RemotePlayer>, team: Team)
      reads this
    {
      Mirrors(targets, indicators, Teammates(players, team))
    }

    constructor ()
      ensures Valid() && !shown && targets == [] && indicators == []
    {
      shown := false;
      targets := [];
      indicators := [];
    }

    /** Updates every indicator towards its target, in order; scene gives the
        positions of the transforms that still exist. */
    method Update(scene: map<TransformId, Vec3>)
      requires Valid()
      modifies this
      ensures Valid()
      ensures targets == old(targets) && shown == old(shown)
      ensures |indicators| == |old(indicators)|
      ensures forall k | 0 <= k < |indicators| ::
        indicators[k] == UpdateIndicator(Locate(scene, targets[k]), old(indicators)[k])
    {
      var i := 0;
      while i < |targets|
        invariant 0 <= i <= |targets| == |indicators|
        invariant targets == old(targets) && shown == old(shown)
        invariant forall k | 0 <= k < i ::
          indicators[k] == UpdateIndicator(Locate(scene, targets[k]), old(indicators)[k])
        invariant forall k | i <= k < |indicators| :: indicators[k] == old(indicators)[k]
      {
        indicators := indicators[i := UpdateIndicator(Locate(scene, targets[i]), indicators[i])];
        i := i + 1;
      }
    }

    /** Shows or hides the indicators, unless chat is shown; showing them
        rebuilds them for the current players. */
    method Toggle(chat: ChatUi.Chat, players: seq<RemotePlayer>, localTeam: Team)
      requires Valid()
      modifies this
      ensures Valid()
      ensures chat.shown ==> shown == old(shown) && targets == old(targets) && indicators == old(indicators)
      ensures !chat.shown ==> shown == !old(shown)
      ensures !chat.shown && shown ==> PointsAt(players, localTeam)
      ensures !chat.shown && !shown ==> targets == old(targets) && indicators == old(indicators)
    {
      if chat.shown {
        return;
      }
      shown := !shown;
      if shown {
        Rebuild(players, localTeam);
      }
    }

    /** Drops every indicator and creates one for each teammate among
        players, in their order. */
    method Rebuild(players: seq<RemotePlayer>, localTeam: Team)
      modifies this
      ensures Valid() && PointsAt(players, localTeam)
      ensures shown == old(shown)
    {
      indicators := [];
      targets := [];
      var i := 0;
      while i < |players|
        invariant 0 <= i <= |players|
        invariant Valid() && PointsAt(players[..i], localTeam)
        invariant shown == old(shown)
      {
        ghost var before := Teammates(players[..i], localTeam);
        ghost var targets0, indicators0 := targets, indicators;
        AddIndicator(players[i], localTeam);
        TeammatesOfPrefix(players, i, localTeam);
        if players[i].team == localTeam {
          MirrorsAdd(targets0, indicators0, before, players[i]);
        }
        i := i + 1;
      }
      assert players[..i] == players;
    }

    /** Adds an indicator for player if it is on the local team, and
        nothing otherwise. */
    method AddIndicator(player: RemotePlayer, localTeam: Team)
      requires Valid()
      modifies this
      ensures Valid()
      ensures player.team != localTeam ==> targets == old(targets) && indicators == old(indicators)
      ensures player.team == localTeam ==>
        && targets == old(targets) + [player.transform]
        && indicators == old(indicators) + [Some(NewIndicator(player))]
      ensures shown == old(shown)
    {
      if player.team != localTeam {
        return;
      }
      targets := targets + [player.transform];
      indicators := indicators + [Some(NewIndicator(player))];
    }
  }

  /** After a rebuild every target is a teammate and every indicator has
      the local team's colour. */
  lemma RebuiltIndicatorsHaveTeamColor(players: seq<RemotePlayer>, localTeam: Team, k: nat)
    requires k < |Teammates(players, localTeam)|
    ensures var mate := Teammates(players, localTeam)[k];
            && mate in players && mate.team == localTeam
            && NewIndicator(mate).color == Data(localTeam).Color()
  {
    var mate := Teammates(players, localTeam)[k];
    assert mate in Teammates(players, localTeam);
  }
}
