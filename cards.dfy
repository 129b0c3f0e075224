/** The tracking cards of 1.py: the list kept in `st.session_state.cards`,
    to which "Add Tracker" appends, and the render pass that re-reads each
    card's statistic and colours the card by whether it met its target. */
module Cards {
  import opened PyJson
  import opened Boxscore

  /** One tracking card. `target` comes from a number input with
      `min_value=0, step=1`, so it is a non-negative integer. */
  datatype Card = Card(gameId: Json, gameName: Json, player: string, statType: string, target: nat)

  /** `stat_value >= card["target"]`. */
  predicate Met(statValue: int, target: nat) {
    statValue >= target
  }

  /** The background colour of a rendered card: one colour for a met target,
      the other for a missed one. */
  function Color(statValue: int, target: nat): (c: string)
    ensures c == "lightgreen" <==> Met(statValue, target)
    ensures c == "lightcoral" <==> !Met(statValue, target)
  {
    if statValue >= target then "lightgreen" else "lightcoral"
  }

  /** `st.session_state.cards`. Cards are only ever appended. */
  class CardRegistry {
    var cards: seq<Card>

    /** `st.session_state.cards = []` on the first run. */
    constructor ()
      ensures cards == []
    {
      cards := [];
    }

    /** The "Add Tracker" button: appends one card for the game the user
        picked in the expander, with the game id `game_options` gives for
        its name. The multiselect offers only names of `options`. */
    method AddTracker(options: map<Json, Json>, gameName: Json, player: string, statType: string, target: nat)
      requires gameName in options
      modifies this
      ensures cards == old(cards) + [Card(options[gameName], gameName, player, statType, target)]
      ensures |cards| == |old(cards)| + 1 && cards[..|old(cards)|] == old(cards)
    {
      cards := cards + [Card(options[gameName], gameName, player, statType, target)];
    }

    /** The render loop over the cards: for each card, in list order, its
        statistic is read from `summaries[k]` (the summary document fetched
        for that card) and turned into a colour. The first failing lookup
        stops the pass. Nothing is changed. */
    method Colors(summaries: seq<Json>) returns (r: Result<seq<string>>)
      requires |summaries| == |cards|
      ensures r == ColorsFrom(cards, CardStats(cards, summaries), [])
      ensures r.Ok? <==> forall k :: 0 <= k < |cards| ==> PlayerStat(summaries[k], cards[k].player, cards[k].statType).Ok?
      ensures r.Ok? ==> |r.value| == |cards| &&
                        forall k :: 0 <= k < |cards| ==>
                          r.value[k] == Color(PlayerStat(summaries[k], cards[k].player, cards[k].statType).value, cards[k].target)
      ensures r.Err? ==> exists k :: 0 <= k < |cards| && PlayerStat(summaries[k], cards[k].player, cards[k].statType) == Err(r.error) &&
                                     forall j :: 0 <= j < k ==> PlayerStat(summaries[j], cards[j].player, cards[j].statType).Ok?
    {
      ghost var stats := CardStats(cards, summaries);
      var colors: seq<string> := [];
      var k := 0;
      while k < |cards|
        invariant k <= |cards|
        invariant ColorsFrom(cards, stats, []) == ColorsFrom(cards[k..], stats[k..], colors)
      {
        assert cards[k..][0] == cards[k] && cards[k..][1..] == cards[k + 1..];
        assert stats[k..][0] == stats[k] && stats[k..][1..] == stats[k + 1..];
        var card := cards[k];
        var value := FetchPlayerStat(summaries[k], card.player, card.statType);
        if value.Err? {
          r := Err(value.error);
          RenderPassOutcome(cards, summaries);
          return;
        }
        colors := colors + [Color(value.value, card.target)];
        k := k + 1;
      }
      r := Ok(colors);
      RenderPassOutcome(cards, summaries);
    }
  }

  /** The statistic each card shows, read from its own summary document. */
  function CardStats(cards: seq<Card>, summaries: seq<Json>): (r: seq<Result<int>>)
    requires |summaries| == |cards|
    ensures |r| == |cards|
    ensures forall k :: 0 <= k < |cards| ==> r[k] == PlayerStat(summaries[k], cards[k].player, cards[k].statType)
  {
    seq(|cards|, k requires 0 <= k < |cards| => PlayerStat(summaries[k], cards[k].player, cards[k].statType))
  }

  /** The colours of the render pass after `acc`, card by card, given each
      card's statistic; the first failing statistic is raised. */
  function ColorsFrom(cards: seq<Card>, stats: seq<Result<int>>, acc: seq<string>): Result<seq<string>>
    requires |stats| == |cards|
    decreases |cards|
  {
    if cards == [] then Ok(acc)
    else
      var value :- stats[0];
      ColorsFrom(cards[1..], stats[1..], acc + [Color(value, cards[0].target)])
  }

  /** The render pass shows the cards exactly when every card's statistic
      can be read. */
  lemma {:induction false} ColorsFromSucceeds(cards: seq<Card>, stats: seq<Result<int>>, acc: seq<string>)
    requires |stats| == |cards|
    ensures ColorsFrom(cards, stats, acc).Ok? <==> forall k :: 0 <= k < |cards| ==> stats[k].Ok?
    decreases |cards|
  {
    if cards != [] && stats[0].Ok? {
      ColorsFromSucceeds(cards[1..], stats[1..], acc + [Color(stats[0].value, cards[0].target)]);
      assert forall k :: 0 < k < |cards| ==> stats[1..][k - 1] == stats[k];
    }
  }

  /** When it succeeds it extends `acc` by one colour per card, in card
      order, each from the card's own statistic and target. */
  lemma {:induction false} ColorsFromColours(cards: seq<Card>, stats: seq<Result<int>>, acc: seq<string>, r: seq<string>)
    requires |stats| == |cards| && ColorsFrom(cards, stats, acc) == Ok(r)
    ensures |r| == |acc| + |cards| && r[..|acc|] == acc
    ensures forall k :: 0 <= k < |cards| ==> stats[k].Ok? && r[|acc| + k] == Color(stats[k].value, cards[k].target)
    decreases |cards|
  {
    if cards != [] {
      var acc' := acc + [Color(stats[0].value, cards[0].target)];
      ColorsFromColours(cards[1..], stats[1..], acc', r);
      assert r[..|acc'|] == acc';
      assert r[|acc|] == acc'[|acc|];
      assert r[..|acc|] == acc'[..|acc|];
      forall k | 0 < k < |cards| ensures stats[k].Ok? && r[|acc| + k] == Color(stats[k].value, cards[k].target) {
        assert cards[1..][k - 1] == cards[k] && stats[1..][k - 1] == stats[k];
        assert r[|acc'| + (k - 1)] == r[|acc| + k];
      }
    }
  }

  /** When it fails, the error is that of the first card whose statistic
      cannot be read. */
  lemma {:induction false} ColorsFromFirstError(cards: seq<Card>, stats: seq<Result<int>>, acc: seq<string>, e: Error)
    requires |stats| == |cards| && ColorsFrom(cards, stats, acc) == Err(e)
    ensures exists k :: 0 <= k < |cards| && stats[k] == Err(e) && forall j :: 0 <= j < k ==> stats[j].Ok?
    decreases |cards|
  {
    assert cards != [];
    if stats[0].Err? {
      assert stats[0] == Err(e);
    } else {
      var tail := stats[1..];
      ColorsFromFirstError(cards[1..], tail, acc + [Color(stats[0].value, cards[0].target)], e);
      var k :| 0 <= k < |tail| && tail[k] == Err(e) && forall j :: 0 <= j < k ==> tail[j].Ok?;
      assert stats[k + 1] == tail[k];
      forall j | 0 < j < k + 1 ensures stats[j].Ok? {
        assert stats[j] == tail[j - 1];
      }
    }
  }

  /** A successful render pass colours the k-th card lightgreen exactly when
      the player's statistic in that card's summary reaches its target. */
  lemma CardsShowTheirTargets(cards: seq<Card>, summaries: seq<Json>, r: seq<string>)
    requires |summaries| == |cards| && ColorsFrom(cards, CardStats(cards, summaries), []) == Ok(r)
    ensures |r| == |cards|
    ensures forall k :: 0 <= k < |cards| ==>
              PlayerStat(summaries[k], cards[k].player, cards[k].statType).Ok? &&
              (r[k] == "lightgreen" <==> Met(PlayerStat(summaries[k], cards[k].player, cards[k].statType).value, cards[k].target))
  {
    var stats := CardStats(cards, summaries);
    ColorsFromColours(cards, stats, [], r);
  }

  /** What the render pass yields for the cards and their summaries: the
      colours of all cards, in card order, each from that card's own
      statistic and target, exactly when every statistic can be read, and
      otherwise the error of the first card whose statistic cannot. */
  lemma RenderPassOutcome(cards: seq<Card>, summaries: seq<Json>)
    requires |summaries| == |cards|
    ensures ColorsFrom(cards, CardStats(cards, summaries), []).Ok? <==>
              forall k :: 0 <= k < |cards| ==> PlayerStat(summaries[k], cards[k].player, cards[k].statType).Ok?
    ensures ColorsFrom(cards, CardStats(cards, summaries), []).Ok? ==>
              var r := ColorsFrom(cards, CardStats(cards, summaries), []).value;
              |r| == |cards| &&
              forall k :: 0 <= k < |cards| ==>
                r[k] == Color(PlayerStat(summaries[k], cards[k].player, cards[k].statType).value, cards[k].target)
    ensures ColorsFrom(cards, CardStats(cards, summaries), []).Err? ==>
              var e := ColorsFrom(cards, CardStats(cards, summaries), []).error;
              exists k :: 0 <= k < |cards| && PlayerStat(summaries[k], cards[k].player, cards[k].statType) == Err(e) &&
                          forall j :: 0 <= j < k ==> PlayerStat(summaries[j], cards[j].player, cards[j].statType).Ok?
  {
    var stats := CardStats(cards, summaries);
    ColorsFromSucceeds(cards, stats, []);
    match ColorsFrom(cards, stats, [])
    case Ok(r) => ColorsFromColours(cards, stats, [], r);
    case Err(e) => ColorsFromFirstError(cards, stats, [], e);
  }
}
