/** The argv interceptor: options are offered one by one to an interceptor, which takes
    them out of argv by accepting them. */
module CommandLine {

  datatype TokenType = ShortOption | LongOption | DoubleDash | Other

  function Classify(token: string): TokenType {
    if |token| < 2 || token[0] != '-' then Other
    else if token[1] != '-' then ShortOption
    else if |token| == 2 then DoubleDash
    else LongOption
  }

  predicate IsOption(token: string) { Classify(token).ShortOption? || Classify(token).LongOption? }

  /** An option token without its dashes. */
  function Skipped(token: string): string
    requires IsOption(token)
  {
    token[if Classify(token).LongOption? then 2 else 1..]
  }

  function EqualsAt(s: string): (r: nat)
    ensures r <= |s|
    ensures r < |s| ==> s[r] == '='
    ensures forall i :: 0 <= i < r ==> s[i] != '='
  {
    if s == "" || s[0] == '=' then 0 else 1 + EqualsAt(s[1..])
  }

  predicate HasValue(token: string)
    requires IsOption(token)
  {
    EqualsAt(Skipped(token)) < |Skipped(token)|
  }

  /** The key under which an option token is offered. */
  function KeyOf(token: string): string
    requires IsOption(token)
  {
    Skipped(token)[..EqualsAt(Skipped(token))]
  }

  datatype Offer = Offer(key: string, value: string)

  /** The interceptor may remember what it was offered before: it sees the earlier offers. */
  type Interceptor = (seq<Offer>, Offer) -> bool

  /** The reading of a command line as items: an option with the value that belongs to it,
      or a token that is neither. */
  datatype Item = Option(tokens: seq<string>, offer: Offer) | Plain(token: string)

  function TokensOf(item: Item): seq<string> {
    if item.Option? then item.tokens else [item.token]
  }

  /** First phase: the items before `--`, and the tokens from `--` on. */
  function Group(tokens: seq<string>): (g: (seq<Item>, seq<string>)) {
    if tokens == [] || Classify(tokens[0]).DoubleDash? then ([], tokens)
    else
      var item := FirstItem(tokens);
      var (items, rest) := Group(tokens[|TokensOf(item)|..]);
      ([item] + items, rest)
  }

  function FirstItem(tokens: seq<string>): (item: Item)
    requires tokens != []
    ensures 0 < |TokensOf(item)| <= |tokens|
    ensures TokensOf(item) == tokens[..|TokensOf(item)|]
  {
    var token := tokens[0];
    if !IsOption(token) then Plain(token)
    else if HasValue(token) then
      Option([token], Offer(KeyOf(token), Skipped(token)[EqualsAt(Skipped(token)) + 1..]))
    else if |tokens| > 1 && Classify(tokens[1]).Other? then
      Option(tokens[..2], Offer(KeyOf(token), tokens[1]))
    else Option([token], Offer(KeyOf(token), ""))
  }

  /** Second phase: each option is offered once, in order; the tokens of the refused ones
      and of the plain items stay. Also returns every offer made, the earlier ones first. */
  function Settle(items: seq<Item>, before: seq<Offer>, accepts: Interceptor): (r: (seq<string>, seq<Offer>)) {
    if items == [] then ([], before)
    else if items[0].Plain? then
      var (kept, offers) := Settle(items[1..], before, accepts);
      ([items[0].token] + kept, offers)
    else
      var (kept, offers) := Settle(items[1..], before + [items[0].offer], accepts);
      (if accepts(before, items[0].offer) then kept else items[0].tokens + kept, offers)
  }

  function Filtered(tokens: seq<string>, before: seq<Offer>, accepts: Interceptor): seq<string> {
    Settle(Group(tokens).0, before, accepts).0 + Group(tokens).1
  }

  function Offers(tokens: seq<string>, before: seq<Offer>, accepts: Interceptor): seq<Offer> {
    Settle(Group(tokens).0, before, accepts).1
  }

  /** One item of the reading. */
  lemma Unfold(tokens: seq<string>, before: seq<Offer>, accepts: Interceptor)
    requires tokens != [] && !Classify(tokens[0]).DoubleDash?
    ensures var item := FirstItem(tokens); var rest := tokens[|TokensOf(item)|..];
      if item.Plain? then
        && Filtered(tokens, before, accepts) == [item.token] + Filtered(rest, before, accepts)
        && Offers(tokens, before, accepts) == Offers(rest, before, accepts)
      else
        && Filtered(tokens, before, accepts)
           == (if accepts(before, item.offer) then [] else item.tokens) + Filtered(rest, before + [item.offer], accepts)
        && Offers(tokens, before, accepts) == Offers(rest, before + [item.offer], accepts)
  {
    var item := FirstItem(tokens);
    var g := Group(tokens[|TokensOf(item)|..]);
    assert Group(tokens) == ([item] + g.0, g.1);
    SettleFirst(item, g.0, before, accepts);
  }

  lemma SettleFirst(item: Item, items: seq<Item>, before: seq<Offer>, accepts: Interceptor)
    ensures var next := if item.Plain? then before else before + [item.offer];
      && Settle([item] + items, before, accepts).0
         == (if item.Option? && accepts(before, item.offer) then [] else TokensOf(item)) + Settle(items, next, accepts).0
      && Settle([item] + items, before, accepts).1 == Settle(items, next, accepts).1
  {
    assert ([item] + items)[1..] == items;
  }

  lemma UnfoldSingle(token: string, rest: seq<string>, before: seq<Offer>, accepts: Interceptor)
    requires IsOption(token) && (HasValue(token) || rest == [] || !Classify(rest[0]).Other?)
    ensures var offer := FirstItem([token] + rest).offer;
      && offer == Offer(KeyOf(token), if HasValue(token) then Skipped(token)[EqualsAt(Skipped(token)) + 1..] else "")
      && Filtered([token] + rest, before, accepts)
         == (if accepts(before, offer) then [] else [token]) + Filtered(rest, before + [offer], accepts)
      && Offers([token] + rest, before, accepts) == Offers(rest, before + [offer], accepts)
  {
    Unfold([token] + rest, before, accepts);
    assert ([token] + rest)[1..] == rest;
  }

  lemma UnfoldPair(token: string, value: string, rest: seq<string>, before: seq<Offer>, accepts: Interceptor)
    requires IsOption(token) && !HasValue(token) && Classify(value).Other?
    ensures var offer := Offer(KeyOf(token), value);
      && Filtered([token, value] + rest, before, accepts)
         == (if accepts(before, offer) then [] else [token, value]) + Filtered(rest, before + [offer], accepts)
      && Offers([token, value] + rest, before, accepts) == Offers(rest, before + [offer], accepts)
  {
    var all := [token, value] + rest;
    Unfold(all, before, accepts);
    assert FirstItem(all) == Option(all[..2], Offer(KeyOf(token), value));
    assert all[2..] == rest && all[..2] == [token, value];
  }

  lemma UnfoldPlain(token: string, rest: seq<string>, before: seq<Offer>, accepts: Interceptor)
    requires Classify(token).Other?
    ensures Filtered([token] + rest, before, accepts) == [token] + Filtered(rest, before, accepts)
    ensures Offers([token] + rest, before, accepts) == Offers(rest, before, accepts)
  {
    Unfold([token] + rest, before, accepts);
    assert ([token] + rest)[1..] == rest;
  }

  /** `kept` and `offers` so far, and the two-phase reading of `todo` after them, make up
      the two-phase reading of `tokens`. */
  ghost predicate OnTrack(tokens: seq<string>, accepts: Interceptor, kept: seq<string>, offers: seq<Offer>, todo: seq<string>) {
    && Filtered(tokens, [], accepts) == kept + Filtered(todo, offers, accepts)
    && Offers(tokens, [], accepts) == Offers(todo, offers, accepts)
  }

  lemma TrackSingle(tokens: seq<string>, accepts: Interceptor, kept: seq<string>, offers: seq<Offer>,
                    token: string, rest: seq<string>, offer: Offer)
    requires OnTrack(tokens, accepts, kept, offers, [token] + rest)
    requires IsOption(token) && (HasValue(token) || rest == [] || !Classify(rest[0]).Other?)
    requires offer == Offer(KeyOf(token), if HasValue(token) then Skipped(token)[EqualsAt(Skipped(token)) + 1..] else "")
    ensures OnTrack(tokens, accepts, kept + if accepts(offers, offer) then [] else [token], offers + [offer], rest)
  {
    hide Filtered, Offers, FirstItem, EqualsAt, Skipped, Classify;
    UnfoldSingle(token, rest, offers, accepts);
    assert kept + ((if accepts(offers, offer) then [] else [token]) + Filtered(rest, offers + [offer], accepts))
        == kept + (if accepts(offers, offer) then [] else [token]) + Filtered(rest, offers + [offer], accepts);
  }

  lemma TrackPair(tokens: seq<string>, accepts: Interceptor, kept: seq<string>, offers: seq<Offer>,
                  token: string, value: string, rest: seq<string>, offer: Offer)
    requires OnTrack(tokens, accepts, kept, offers, [token] + ([value] + rest))
    requires IsOption(token) && !HasValue(token) && Classify(value).Other?
    requires offer == Offer(KeyOf(token), value)
    ensures OnTrack(tokens, accepts, kept + if accepts(offers, offer) then [] else [token, value], offers + [offer], rest)
  {
    hide Filtered, Offers, FirstItem;
    UnfoldPair(token, value, rest, offers, accepts);
    assert [token] + ([value] + rest) == [token, value] + rest;
  }

  lemma TrackPlain(tokens: seq<string>, accepts: Interceptor, kept: seq<string>, offers: seq<Offer>,
                   token: string, rest: seq<string>)
    requires OnTrack(tokens, accepts, kept, offers, [token] + rest)
    requires Classify(token).Other?
    ensures OnTrack(tokens, accepts, kept + [token], offers, rest)
  {
    hide Filtered, Offers, FirstItem;
    UnfoldPlain(token, rest, offers, accepts);
  }

  /** Offers a pending option that got no value. */
  method OfferPending(ghost tokens: seq<string>, accepts: Interceptor, kept: seq<string>, offers: seq<Offer>,
                      token: string, key: string, ghost rest: seq<string>)
    returns (kept': seq<string>, offers': seq<Offer>)
    requires OnTrack(tokens, accepts, kept, offers, [token] + rest)
    requires IsOption(token) && !HasValue(token) && key == KeyOf(token)
    requires rest == [] || !Classify(rest[0]).Other?
    ensures OnTrack(tokens, accepts, kept', offers', rest)
  {
    TrackSingle(tokens, accepts, kept, offers, token, rest, Offer(key, ""));
    kept' := kept + if accepts(offers, Offer(key, "")) then [] else [token];
    offers' := offers + [Offer(key, "")];
  }

  datatype Pending = Nothing | ExpectValue(token: string, key: string)

  /** One token before `--`: the cases Normal and ExpectValue of the state machine. */
  method Step(ghost tokens: seq<string>, accepts: Interceptor, kept: seq<string>, offers: seq<Offer>,
              pending: Pending, token: string, ghost rest: seq<string>)
    returns (kept': seq<string>, offers': seq<Offer>, pending': Pending)
    requires Expected(pending) && OnTrack(tokens, accepts, kept, offers, Todo(pending) + ([token] + rest))
    requires !Classify(token).DoubleDash?
    ensures Expected(pending') && OnTrack(tokens, accepts, kept', offers', Todo(pending') + rest)
  {
    kept', offers', pending' := kept, offers, pending;
    assert [] + ([token] + rest) == [token] + rest && [] + rest == rest;
    if IsOption(token) {
      if pending.ExpectValue? {
        kept', offers' := OfferPending(tokens, accepts, kept, offers, pending.token, pending.key, [token] + rest);
      }
      var skipped := token[if Classify(token).LongOption? then 2 else 1..];
      var eq := EqualsAt(skipped);
      if eq < |skipped| {
        var offer := Offer(skipped[..eq], skipped[eq + 1..]);
        TrackSingle(tokens, accepts, kept', offers', token, rest, offer);
        kept' := kept' + if accepts(offers', offer) then [] else [token];
        offers' := offers' + [offer];
        pending' := Nothing;
      } else {
        pending' := ExpectValue(token, skipped);
      }
    } else if pending.ExpectValue? {
      var offer := Offer(pending.key, token);
      TrackPair(tokens, accepts, kept, offers, pending.token, token, rest, offer);
      kept' := kept + if accepts(offers, offer) then [] else [pending.token, token];
      offers' := offers + [offer];
      pending' := Nothing;
    } else {
      TrackPlain(tokens, accepts, kept, offers, token, rest);
      kept' := kept + [token];
    }
  }

  predicate Expected(pending: Pending) {
    pending.ExpectValue? ==> IsOption(pending.token) && !HasValue(pending.token) && pending.key == KeyOf(pending.token)
  }

  function Todo(pending: Pending): seq<string> {
    if pending.ExpectValue? then [pending.token] else []
  }

  /** At the end, and from `--` on, nothing is offered and nothing left out. */
  lemma Stopped(tokens: seq<string>, before: seq<Offer>, accepts: Interceptor)
    requires tokens == [] || Classify(tokens[0]).DoubleDash?
    ensures Filtered(tokens, before, accepts) == tokens
    ensures Offers(tokens, before, accepts) == before
  {
  }

  /** The one-pass loop over argv computes the two-phase reading. */
  method Go(argv: seq<string>, accepts: Interceptor) returns (newArgv: seq<string>, offers: seq<Offer>)
    requires argv != []
    ensures newArgv == [argv[0]] + Filtered(argv[1..], [], accepts)
    ensures offers == Offers(argv[1..], [], accepts)
  {
    hide Filtered, Offers, Classify, KeyOf, HasValue;
    var kept: seq<string> := [];
    offers := [];
    var pending, putToNewArgv := Nothing, false;
    assert [] + argv[1..] == argv[1..];
    for i := 1 to |argv|
      invariant !putToNewArgv ==>
        Expected(pending) && OnTrack(argv[1..], accepts, kept, offers, Todo(pending) + argv[i..])
      invariant putToNewArgv ==>
        && pending.Nothing?
        && Filtered(argv[1..], [], accepts) == kept + argv[i..]
        && Offers(argv[1..], [], accepts) == offers
    {
      var token := argv[i];
      assert argv[i..] == [token] + argv[i + 1..];
      if putToNewArgv {
        kept := kept + [token];
      } else if !Classify(token).DoubleDash? {
        kept, offers, pending := Step(argv[1..], accepts, kept, offers, pending, token, argv[i + 1..]);
      } else {
        if pending.ExpectValue? {
          kept, offers := OfferPending(argv[1..], accepts, kept, offers, pending.token, pending.key, argv[i..]);
          pending := Nothing;
        }
        assert [] + argv[i..] == argv[i..];
        Stopped(argv[i..], offers, accepts);
        kept := kept + [token];
        putToNewArgv := true;
      }
    }
    if pending.ExpectValue? {
      assert [pending.token] + argv[|argv|..] == [pending.token] + [];
      kept, offers := OfferPending(argv[1..], accepts, kept, offers, pending.token, pending.key, []);
    }
    assert argv[|argv|..] == [] && [] + argv[|argv|..] == argv[|argv|..];
    Stopped([], offers, accepts);
    newArgv := [argv[0]] + kept;
  }

  // ----- what the caller relies on

  function Flatten(items: seq<Item>): seq<string> {
    if items == [] then [] else TokensOf(items[0]) + Flatten(items[1..])
  }

  lemma FlattenFirst(item: Item, items: seq<Item>)
    ensures Flatten([item] + items) == TokensOf(item) + Flatten(items)
  {
    assert ([item] + items)[1..] == items;
  }

  lemma GroupFirst(tokens: seq<string>)
    requires tokens != [] && !Classify(tokens[0]).DoubleDash?
    ensures var item := FirstItem(tokens); var g := Group(tokens[|TokensOf(item)|..]);
      Group(tokens) == ([item] + g.0, g.1)
  {
  }

  lemma GroupStopped(tokens: seq<string>)
    requires tokens == [] || Classify(tokens[0]).DoubleDash?
    ensures Flatten(Group(tokens).0) + Group(tokens).1 == tokens
  {
    assert [] + tokens == tokens;
  }

  /** Grouping loses and reorders nothing. */
  lemma {:induction false} GroupPartitions(tokens: seq<string>)
    ensures Flatten(Group(tokens).0) + Group(tokens).1 == tokens
    decreases |tokens|
  {
    hide Group, Flatten, FirstItem, Classify;
    if tokens == [] || Classify(tokens[0]).DoubleDash? {
      GroupStopped(tokens);
    } else {
      var item := FirstItem(tokens);
      var rest := tokens[|TokensOf(item)|..];
      GroupFirst(tokens);
      GroupPartitions(rest);
      FlattenFirst(item, Group(rest).0);
      assert TokensOf(item) + rest == tokens;
    }
  }

  /** `small` is `big` with some elements left out. */
  ghost predicate Subsequence<T>(small: seq<T>, big: seq<T>) {
    if small == [] then true
    else if big == [] then false
    else (small[0] == big[0] && Subsequence(small[1..], big[1..])) || Subsequence(small, big[1..])
  }

  lemma {:induction false} SubsequencePrefix<T>(prefix: seq<T>, small: seq<T>, big: seq<T>)
    requires Subsequence(small, big)
    ensures Subsequence(prefix + small, prefix + big)
  {
    if prefix == [] {
      assert prefix + small == small && prefix + big == big;
    } else {
      SubsequencePrefix(prefix[1..], small, big);
      assert (prefix + small)[1..] == prefix[1..] + small;
      assert (prefix + big)[1..] == prefix[1..] + big;
    }
  }

  lemma {:induction false} SubsequenceSkip<T>(prefix: seq<T>, small: seq<T>, big: seq<T>)
    requires Subsequence(small, big)
    ensures Subsequence(small, prefix + big)
  {
    if prefix == [] {
      assert prefix + big == big;
    } else {
      SubsequenceSkip(prefix[1..], small, big);
      assert (prefix + big)[1..] == prefix[1..] + big;
    }
  }

  /** The new argv is the old one with tokens left out. */
  lemma {:induction false} FilteredIsSubsequence(tokens: seq<string>, before: seq<Offer>, accepts: Interceptor)
    ensures Subsequence(Filtered(tokens, before, accepts), tokens)
    decreases |tokens|
  {
    if tokens == [] || Classify(tokens[0]).DoubleDash? {
      SubsequencePrefix(tokens, [], []);
      assert tokens + [] == tokens && Filtered(tokens, before, accepts) == tokens;
    } else {
      var item := FirstItem(tokens);
      var rest := tokens[|TokensOf(item)|..];
      assert tokens == TokensOf(item) + rest;
      Unfold(tokens, before, accepts);
      var next := if item.Plain? then before else before + [item.offer];
      FilteredIsSubsequence(rest, next, accepts);
      SubsequencePrefix(TokensOf(item), Filtered(rest, next, accepts), rest);
      SubsequenceSkip(TokensOf(item), Filtered(rest, next, accepts), rest);
      if item.Option? && accepts(before, item.offer) {
        assert [] + Filtered(rest, next, accepts) == Filtered(rest, next, accepts);
      }
    }
  }

  /** Every offer the run makes is refused. */
  ghost predicate AllRefused(items: seq<Item>, before: seq<Offer>, accepts: Interceptor) {
    items == [] ||
    if items[0].Plain? then AllRefused(items[1..], before, accepts)
    else !accepts(before, items[0].offer) && AllRefused(items[1..], before + [items[0].offer], accepts)
  }

  /** argv comes back unchanged exactly when the interceptor refuses every offer. */
  lemma {:induction false} UnchangedIffAllRefused(tokens: seq<string>, before: seq<Offer>, accepts: Interceptor)
    ensures |Filtered(tokens, before, accepts)| <= |tokens|
    ensures Filtered(tokens, before, accepts) == tokens <==> AllRefused(Group(tokens).0, before, accepts)
    decreases |tokens|
  {
    if tokens == [] || Classify(tokens[0]).DoubleDash? {
      assert Filtered(tokens, before, accepts) == tokens;
    } else {
      var item := FirstItem(tokens);
      var rest := tokens[|TokensOf(item)|..];
      assert tokens == TokensOf(item) + rest;
      Unfold(tokens, before, accepts);
      var next := if item.Plain? then before else before + [item.offer];
      UnchangedIffAllRefused(rest, next, accepts);
      assert Group(tokens).0[1..] == Group(rest).0;
      var kept := Filtered(rest, next, accepts);
      if item.Option? && accepts(before, item.offer) {
        assert |Filtered(tokens, before, accepts)| < |tokens|;
      } else {
        var all := TokensOf(item) + kept;
        assert Filtered(tokens, before, accepts) == all;
        assert all[|TokensOf(item)|..] == kept;
        if all == tokens { assert kept == rest; }
      }
    }
  }

  ghost predicate KeyOnly(accepts: Interceptor, wants: string -> bool) {
    forall before, offer :: accepts(before, offer) == wants(offer.key)
  }

  /** No option before `--` has a wanted key. */
  predicate NoneWanted(tokens: seq<string>, wants: string -> bool) {
    tokens == [] || Classify(tokens[0]).DoubleDash? ||
    ((IsOption(tokens[0]) ==> !wants(KeyOf(tokens[0]))) && NoneWanted(tokens[1..], wants))
  }

  lemma {:induction false} KeptHasNoneWanted(tokens: seq<string>, before: seq<Offer>, accepts: Interceptor, wants: string -> bool)
    requires KeyOnly(accepts, wants)
    ensures NoneWanted(Filtered(tokens, before, accepts), wants)
    decreases |tokens|
  {
    if tokens != [] && !Classify(tokens[0]).DoubleDash? {
      var item := FirstItem(tokens);
      var rest := tokens[|TokensOf(item)|..];
      Unfold(tokens, before, accepts);
      var next := if item.Plain? then before else before + [item.offer];
      KeptHasNoneWanted(rest, next, accepts, wants);
      var kept := Filtered(rest, next, accepts);
      if item.Option? && accepts(before, item.offer) {
        assert [] + kept == kept;
      } else {
        var all := TokensOf(item) + kept;
        assert all[0] == tokens[0];
        if |TokensOf(item)| == 2 {
          assert all[1..][1..] == kept && all[1..][0] == tokens[1];
        } else {
          assert all[1..] == kept;
        }
      }
    }
  }

  lemma NoneWantedItem(tokens: seq<string>, wants: string -> bool)
    requires NoneWanted(tokens, wants) && tokens != [] && !Classify(tokens[0]).DoubleDash?
    ensures var item := FirstItem(tokens);
      && (item.Option? ==> !wants(item.offer.key))
      && NoneWanted(tokens[|TokensOf(item)|..], wants)
  {
    if |TokensOf(FirstItem(tokens))| == 2 {
      assert tokens[1..][1..] == tokens[2..];
    }
  }

  lemma {:induction false} NoneWantedIsKept(tokens: seq<string>, before: seq<Offer>, accepts: Interceptor, wants: string -> bool)
    requires KeyOnly(accepts, wants)
    requires NoneWanted(tokens, wants)
    ensures Filtered(tokens, before, accepts) == tokens
    decreases |tokens|
  {
    if tokens != [] && !Classify(tokens[0]).DoubleDash? {
      hide NoneWanted, Filtered;
      var item := FirstItem(tokens);
      var rest := tokens[|TokensOf(item)|..];
      Unfold(tokens, before, accepts);
      NoneWantedItem(tokens, wants);
      hide FirstItem;
      NoneWantedIsKept(rest, if item.Plain? then before else before + [item.offer], accepts, wants);
      assert TokensOf(item) + rest == tokens;
    }
  }

  /** An interceptor that looks only at the key has nothing left to take on a second pass. */
  lemma Idempotent(tokens: seq<string>, before: seq<Offer>, again: seq<Offer>, accepts: Interceptor, wants: string -> bool)
    requires KeyOnly(accepts, wants)
    ensures Filtered(Filtered(tokens, before, accepts), again, accepts) == Filtered(tokens, before, accepts)
  {
    KeptHasNoneWanted(tokens, before, accepts, wants);
    NoneWantedIsKept(Filtered(tokens, before, accepts), again, accepts, wants);
  }
}
