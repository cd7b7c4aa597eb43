/** What a command line says, told from the characters of its tokens. */
module OptionReading {
  import opened CommandLine

  /** A token that can be the value of the option before it. */
  predicate IsValue(token: string) { |token| < 2 || token[0] != '-' }

  /** The tokens spell the offer, after one dash or two: `--key=value`, or `--key value`, or
      `--key` where no value follows. */
  ghost predicate Spells(dashes: string, tokens: seq<string>, offer: Offer, next: seq<string>) {
    && (dashes == "--" || (dashes == "-" && !("-" <= offer.key)))
    && '=' !in offer.key
    && (|| tokens == [dashes + offer.key + "=" + offer.value]
        || (tokens == [dashes + offer.key, offer.value] && offer.key != "" && IsValue(offer.value))
        || (tokens == [dashes + offer.key] && offer.key != "" && offer.value == "" && (next == [] || !IsValue(next[0]))))
  }

  /** The item stands before the tokens `next`. */
  ghost predicate Says(item: Item, next: seq<string>) {
    match item
    case Plain(token) => IsValue(token)
    case Option(tokens, offer) => Spells("-", tokens, offer, next) || Spells("--", tokens, offer, next)
  }

  /** The items make up the tokens before `--`, and each is what its tokens say. */
  ghost predicate Reading(items: seq<Item>, rest: seq<string>, tokens: seq<string>) {
    && tokens == Flatten(items) + rest
    && (rest == [] || rest[0] == "--")
    && forall k :: 0 <= k < |items| ==> Says(items[k], Flatten(items[k + 1..]) + rest)
  }

  lemma {:induction false} EqualsAtIs(key: string, value: string)
    requires '=' !in key
    ensures EqualsAt(key) == |key|
    ensures EqualsAt(key + "=" + value) == |key|
  {
    if key != "" {
      EqualsAtIs(key[1..], value);
      assert (key + "=" + value)[1..] == key[1..] + "=" + value;
    }
  }

  /** An option token has its value after its first equals sign. */
  lemma TokenWithValue(dashes: string, key: string, value: string)
    requires dashes == "--" || (dashes == "-" && !("-" <= key))
    requires '=' !in key
    ensures var token := dashes + key + "=" + value;
      && IsOption(token) && HasValue(token) && KeyOf(token) == key
      && Skipped(token)[EqualsAt(Skipped(token)) + 1..] == value
  {
    var token, rest := dashes + key + "=" + value, key + "=" + value;
    assert token == dashes + rest;
    if dashes == "-" { assert token[1] == rest[0]; }
    assert Skipped(token) == rest;
    EqualsAtIs(key, value);
    assert rest[..|key|] == key && rest[|key| + 1..] == value;
  }

  lemma TokenWithoutValue(dashes: string, key: string)
    requires dashes == "--" || (dashes == "-" && !("-" <= key))
    requires '=' !in key && key != ""
    ensures var token := dashes + key;
      IsOption(token) && !HasValue(token) && KeyOf(token) == key
  {
    var token := dashes + key;
    if dashes == "-" { assert token[1] == key[0]; }
    assert Skipped(token) == key;
    EqualsAtIs(key, "");
  }

  function Dashes(token: string): string
    requires IsOption(token)
  {
    if Classify(token).LongOption? then "--" else "-"
  }

  /** The dashes of an option token and what follows them. */
  lemma TokenSplits(token: string)
    requires IsOption(token)
    ensures token == Dashes(token) + Skipped(token) && Skipped(token) != ""
    ensures Dashes(token) == "-" ==> Skipped(token)[0] != '-'
  {
    if Classify(token).LongOption? {
      assert token[..2] == "--" && token == token[..2] + token[2..];
    } else {
      assert token[..1] == "-" && token == token[..1] + token[1..];
    }
  }

  /** The key of an option token, and its value if it has one. */
  lemma TokenSays(token: string)
    requires IsOption(token)
    ensures Dashes(token) == "--" || !("-" <= KeyOf(token))
    ensures '=' !in KeyOf(token)
    ensures if HasValue(token)
      then token == Dashes(token) + KeyOf(token) + "=" + Skipped(token)[EqualsAt(Skipped(token)) + 1..]
      else token == Dashes(token) + KeyOf(token) && KeyOf(token) != ""
  {
    TokenSplits(token);
    SkippedSays(Dashes(token), Skipped(token));
    hide Skipped, EqualsAt, Dashes, IsOption;
  }

  lemma SkippedSays(dashes: string, skipped: string)
    requires skipped != ""
    ensures var eq := EqualsAt(skipped); var key := skipped[..eq];
      && '=' !in key
      && (skipped[0] != '-' ==> !("-" <= key))
      && (if eq < |skipped| then dashes + skipped == dashes + key + "=" + skipped[eq + 1..] else key == skipped)
  {
    hide EqualsAt;
    var eq := EqualsAt(skipped);
    if eq < |skipped| { CutAt(dashes, skipped, eq); }
  }

  lemma CutAt(dashes: string, skipped: string, eq: nat)
    requires eq < |skipped| && skipped[eq] == '='
    ensures dashes + skipped == dashes + skipped[..eq] + "=" + skipped[eq + 1..]
  {
    var key, value := skipped[..eq], skipped[eq + 1..];
    assert skipped == key + "=" + value;
  }

  lemma ValueIsOther(token: string)
    ensures IsValue(token) <==> Classify(token).Other?
    ensures Classify(token).DoubleDash? <==> token == "--"
  {
  }

  /** The first item is what the first tokens say. */
  lemma FirstSays(tokens: seq<string>)
    requires tokens != [] && tokens[0] != "--"
    ensures Says(FirstItem(tokens), tokens[|TokensOf(FirstItem(tokens))|..])
  {
    var token := tokens[0];
    ValueIsOther(token);
    if IsOption(token) {
      TokenSays(token);
      if |tokens| > 1 {
        ValueIsOther(tokens[1]);
        assert tokens[..2] == [token, tokens[1]] && tokens[1..][0] == tokens[1];
      }
      hide Skipped, KeyOf, EqualsAt, HasValue, IsValue;
    }
  }

  /** Tokens that spell an offer are read as that offer. */
  lemma SpelledIsFirst(dashes: string, item: Item, next: seq<string>)
    requires item.Option? && Spells(dashes, item.tokens, item.offer, next)
    ensures FirstItem(item.tokens + next) == item && item.tokens[0] != "--"
  {
    var key, value, all := item.offer.key, item.offer.value, item.tokens + next;
    if item.tokens == [dashes + key + "=" + value] {
      TokenWithValue(dashes, key, value);
    } else {
      TokenWithoutValue(dashes, key);
      if |item.tokens| == 2 {
        ValueIsOther(value);
        assert all[..2] == item.tokens;
      } else if next != [] {
        ValueIsOther(next[0]);
        assert all[1] == next[0];
      }
    }
  }

  lemma SaidIsFirst(item: Item, next: seq<string>)
    requires Says(item, next)
    ensures TokensOf(item) != [] && FirstItem(TokensOf(item) + next) == item && TokensOf(item)[0] != "--"
  {
    match item
    case Plain(token) => ValueIsOther(token);
    case Option(tokens, offer) =>
      hide FirstItem;
      if Spells("-", tokens, offer, next) { SpelledIsFirst("-", item, next); } else { SpelledIsFirst("--", item, next); }
  }

  lemma ReadingFirst(item: Item, items: seq<Item>, rest: seq<string>, tokens: seq<string>)
    ensures Reading([item] + items, rest, TokensOf(item) + tokens) <==>
            Reading(items, rest, tokens) && Says(item, tokens)
  {
    hide Says;
    var all := [item] + items;
    FlattenFirst(item, items);
    assert all[1..] == items && all[0] == item;
    var whole := TokensOf(item) + tokens;
    assert TokensOf(item) + Flatten(items) + rest == TokensOf(item) + (Flatten(items) + rest);
    assert whole[|TokensOf(item)|..] == tokens;
    hide Flatten, TokensOf;
    if Reading(all, rest, whole) {
      assert (TokensOf(item) + (Flatten(items) + rest))[|TokensOf(item)|..] == Flatten(items) + rest;
      forall k | 0 <= k < |items| ensures Says(items[k], Flatten(items[k + 1..]) + rest) {
        assert all[k + 1] == items[k] && all[k + 1 + 1..] == items[k + 1..];
      }
      assert Says(all[0], Flatten(all[0 + 1..]) + rest);
    }
    if Reading(items, rest, tokens) && Says(item, tokens) {
      forall k | 0 <= k < |all| ensures Says(all[k], Flatten(all[k + 1..]) + rest) {
        if k > 0 { assert all[k] == items[k - 1] && all[k + 1..] == items[k - 1 + 1..]; }
      }
    }
  }

  /** A command line has one reading, and it is the one that is computed. */
  lemma {:induction false} GroupIsReading(tokens: seq<string>, items: seq<Item>, rest: seq<string>)
    ensures Group(tokens) == (items, rest) <==> Reading(items, rest, tokens)
    decreases |tokens|
  {
    hide Group, FirstItem, Says, Classify, Flatten, Reading;
    if tokens == [] || tokens[0] == "--" {
      StoppedReading(tokens, items, rest);
    } else {
      ValueIsOther(tokens[0]);
      var item := FirstItem(tokens);
      var n := |TokensOf(item)|;
      GroupFirst(tokens);
      assert TokensOf(item) + tokens[n..] == tokens;
      if items != [] && items[0] == item {
        assert items == [item] + items[1..];
        GroupIsReading(tokens[n..], items[1..], rest);
        ReadingFirst(item, items[1..], rest, tokens[n..]);
        FirstSays(tokens);
        if Group(tokens) == (items, rest) { assert items[1..] == Group(tokens[n..]).0; }
      } else if Reading(items, rest, tokens) {
        FirstIsForced(tokens, items, rest);
      }
    }
  }

  lemma StoppedReading(tokens: seq<string>, items: seq<Item>, rest: seq<string>)
    requires tokens == [] || tokens[0] == "--"
    ensures Group(tokens) == (items, rest) <==> Reading(items, rest, tokens)
  {
    hide Says;
    if items == [] {
      assert Flatten(items) + rest == rest;
    } else if Reading(items, rest, tokens) {
      FirstIsForced(tokens, items, rest);
    }
  }

  lemma FirstIsForced(tokens: seq<string>, items: seq<Item>, rest: seq<string>)
    requires Reading(items, rest, tokens)
    ensures items == [] ==> tokens == [] || tokens[0] == "--"
    ensures items != [] ==> tokens != [] && tokens[0] != "--" && items[0] == FirstItem(tokens)
  {
    if items == [] {
      assert Flatten(items) + rest == rest;
    } else {
      FirstIsSaid(tokens, items, rest);
    }
  }

  lemma FirstIsSaid(tokens: seq<string>, items: seq<Item>, rest: seq<string>)
    requires Reading(items, rest, tokens) && items != []
    ensures tokens != [] && tokens[0] != "--" && items[0] == FirstItem(tokens)
  {
    hide FirstItem, Says, TokensOf;
    var item, next := items[0], Flatten(items[0 + 1..]) + rest;
    SaidIsFirst(item, next);
    FlattenFirst(item, items[1..]);
    assert items == [item] + items[1..];
    assert TokensOf(item) + next == tokens;
  }

  /** The tokens kept and the offers made are those of the reading. */
  lemma OffersOfReading(tokens: seq<string>, items: seq<Item>, rest: seq<string>, before: seq<Offer>, accepts: Interceptor)
    requires Reading(items, rest, tokens)
    ensures Filtered(tokens, before, accepts) == Settle(items, before, accepts).0 + rest
    ensures Offers(tokens, before, accepts) == Settle(items, before, accepts).1
  {
    hide Reading;
    GroupIsReading(tokens, items, rest);
  }

  /** What stays of one item, given the offers made before it. */
  function Left(item: Item, offers: seq<Offer>, accepts: Interceptor): seq<string> {
    if item.Option? && accepts(offers, item.offer) then [] else TokensOf(item)
  }

  function Made(item: Item): seq<Offer> { if item.Option? then [item.offer] else [] }

  /** One more item: its offer is made after all the others, and its tokens stay at the end
      unless the interceptor, knowing those, accepts it. */
  lemma {:induction false} SettleLast(items: seq<Item>, item: Item, before: seq<Offer>, accepts: Interceptor)
    ensures var (kept, offers) := Settle(items, before, accepts);
      Settle(items + [item], before, accepts) == (kept + Left(item, offers, accepts), offers + Made(item))
    decreases |items|
  {
    hide Settle, TokensOf;
    if items == [] {
      SettleFirst(item, [], before, accepts);
      NothingSettles(before, accepts);
      NothingSettles(before + Made(item), accepts);
      assert items + [item] == [item] + [] && before + [] == before;
      var left := Left(item, before, accepts);
      assert left + [] == [] + left;
    } else {
      var first, next := items[0], before + Made(items[0]);
      assert before + [] == before;
      assert items == [first] + items[1..] && items + [item] == [first] + (items[1..] + [item]);
      SettleFirst(first, items[1..] + [item], before, accepts);
      SettleFirst(first, items[1..], before, accepts);
      SettleLast(items[1..], item, next, accepts);
      var (kept, offers) := Settle(items[1..], next, accepts);
      assert Left(first, before, accepts) + (kept + Left(item, offers, accepts))
          == Left(first, before, accepts) + kept + Left(item, offers, accepts);
    }
  }

  lemma NothingSettles(before: seq<Offer>, accepts: Interceptor)
    ensures Settle([], before, accepts) == ([], before)
  {
  }
}
