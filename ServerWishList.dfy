/**
 * The server's wish list: the items a player watches, each with a comment, the prices
 * to buy and sell at, and the profiles it belongs to. The list is indexed by profile,
 * an item showing up under a profile once for every time it names that profile, and
 * it is built from the configured entries that name an item of the database.
 */
module ServerWishList {
  import opened Wrappers
  import opened LinkedMap
  import opened Lists
  import opened ServerMain

  datatype WishListItem = WishListItem(id: int, comment: Option<string>, buyPrice: Option<int>,
                                       sellPrice: Option<int>, profiles: seq<string>)

  /** One entry of the configuration, naming its item; the profiles may be missing. */
  datatype WishListItemConfig = WishListItemConfig(name: string, comment: Option<string>, buyPrice: Option<int>,
                                                   sellPrice: Option<int>, profiles: Option<seq<string>>)

  datatype WishListError = UnknownProfile(profile: string) // IllegalArgumentException("The profile … does not exist")

  // ---------------------------------------------------------------------------
  // Indexing by profile

  /** The pairs (profile, item), one per profile the item names. */
  function PairsWith(profiles: seq<string>, item: WishListItem): (r: seq<(string, WishListItem)>)
    ensures |r| == |profiles|
    ensures forall i :: 0 <= i < |r| ==> r[i] == (profiles[i], item)
  {
    seq(|profiles|, i requires 0 <= i < |profiles| => (profiles[i], item))
  }

  /** `items.map { it.profiles.map { p -> p to it } }.flatten()`. */
  function Pairs(items: seq<WishListItem>): seq<(string, WishListItem)>
    decreases |items|
  {
    if items == [] then []
    else Pairs(items[..|items| - 1]) + PairsWith(items[|items| - 1].profiles, items[|items| - 1])
  }

  /** wishListByProfile. */
  function ByProfile(items: seq<WishListItem>): (r: LinkedMap<string, seq<WishListItem>>)
    ensures Valid(r)
  {
    GroupPairs(Pairs(items))
  }

  /** profiles(): the profiles in the order they are first named. */
  function Profiles(items: seq<WishListItem>): seq<string> {
    ByProfile(items).keys
  }

  /** wishListItem(profile). */
  function ItemsOf(items: seq<WishListItem>, profile: string): (r: Result<seq<WishListItem>, WishListError>)
    ensures r.Failure? <==> profile !in ByProfile(items).values
    ensures r.Failure? ==> r.error == UnknownProfile(profile)
  {
    if profile in ByProfile(items).values then Success(ByProfile(items).values[profile])
    else Failure(UnknownProfile(profile))
  }

  /** The reference: each item, in order, once per time it names the profile. */
  function Occurrences(items: seq<WishListItem>, profile: string): seq<WishListItem>
    decreases |items|
  {
    if items == [] then []
    else
      var last := items[|items| - 1];
      Occurrences(items[..|items| - 1], profile) + Repeat(last, multiset(last.profiles)[profile])
  }

  function Repeat<T>(x: T, n: nat): (r: seq<T>)
    ensures |r| == n && forall i :: 0 <= i < n ==> r[i] == x
  {
    seq(n, i => x)
  }

  /** Some item names the profile. */
  predicate HasProfile(items: seq<WishListItem>, profile: string) {
    exists k :: 0 <= k < |items| && profile in items[k].profiles
  }

  lemma {:induction false} SelectPairsWith(profiles: seq<string>, item: WishListItem, profile: string)
    ensures Select(PairsWith(profiles, item), profile) == Repeat(item, multiset(profiles)[profile])
    decreases |profiles|
  {
    if profiles != [] {
      var n := |profiles| - 1;
      assert PairsWith(profiles, item)[..n] == PairsWith(profiles[..n], item);
      assert profiles == profiles[..n] + [profiles[n]];
      assert multiset(profiles) == multiset(profiles[..n]) + multiset{profiles[n]};
      SelectPairsWith(profiles[..n], item, profile);
    }
  }

  lemma {:induction false} SelectPairs(items: seq<WishListItem>, profile: string)
    ensures Select(Pairs(items), profile) == Occurrences(items, profile)
    decreases |items|
  {
    if items != [] {
      var n := |items| - 1;
      var last := items[n];
      SelectPairs(items[..n], profile);
      SelectAppend(Pairs(items[..n]), PairsWith(last.profiles, last), profile);
      SelectPairsWith(last.profiles, last, profile);
    }
  }

  /** An item names the profile exactly when it has an occurrence under it. */
  lemma {:induction false} OccurrencesEmpty(items: seq<WishListItem>, profile: string)
    ensures Occurrences(items, profile) != [] <==> HasProfile(items, profile)
    decreases |items|
  {
    if items != [] {
      var n := |items| - 1;
      var init, last := items[..n], items[n];
      OccurrencesEmpty(init, profile);
      assert profile in last.profiles <==> multiset(last.profiles)[profile] > 0;
      if k :| 0 <= k < |items| && profile in items[k].profiles {
        if k < n {
          assert profile in init[k].profiles;
        }
      }
      if k :| 0 <= k < n && profile in init[k].profiles {
        assert profile in items[k].profiles;
      }
    }
  }

  /** Every occurrence is an item of the list that names the profile. */
  lemma {:induction false} OccurrencesMembers(items: seq<WishListItem>, profile: string)
    ensures forall w :: w in Occurrences(items, profile) ==> w in items && profile in w.profiles
    decreases |items|
  {
    if items != [] {
      var n := |items| - 1;
      var init, last := items[..n], items[n];
      OccurrencesMembers(init, profile);
      assert forall w :: w in init ==> w in items;
      assert multiset(last.profiles)[profile] > 0 ==> profile in last.profiles;
    }
  }

  /**
   * wishListItem(profile) gives each item, in order, once per time it names the
   * profile, and fails exactly when no item names it.
   */
  lemma ItemsOfOccurrences(items: seq<WishListItem>, profile: string)
    ensures ItemsOf(items, profile).Failure? <==> !HasProfile(items, profile)
    ensures ItemsOf(items, profile).Success? ==> ItemsOf(items, profile).value == Occurrences(items, profile)
  {
    GroupPairsSelect(Pairs(items), profile);
    SelectPairs(items, profile);
    OccurrencesEmpty(items, profile);
  }

  /** profiles() holds each profile once, and exactly the profiles some item names. */
  lemma ProfilesExact(items: seq<WishListItem>, profile: string)
    ensures profile in Profiles(items) <==> HasProfile(items, profile)
    ensures forall i, j :: 0 <= i < j < |Profiles(items)| ==> Profiles(items)[i] != Profiles(items)[j]
  {
    ItemsOfOccurrences(items, profile);
  }

  /** What a profile lists are items of the list that name it; so an item without profiles is never listed. */
  lemma ItemsOfMembers(items: seq<WishListItem>, profile: string, w: WishListItem)
    requires ItemsOf(items, profile).Success? && w in ItemsOf(items, profile).value
    ensures w in items && profile in w.profiles && w.profiles != []
  {
    ItemsOfOccurrences(items, profile);
    OccurrencesMembers(items, profile);
  }

  // ---------------------------------------------------------------------------
  // Loading the configuration

  /** The wish-list entry of one configured entry, when its name is an item of the database. */
  function Entry(items: seq<Item>, config: WishListItemConfig): (r: Option<WishListItem>)
    ensures r.None? <==> FindItemByName(items, config.name).None?
    ensures r.Some? ==>
      r.value.id == FindItemByName(items, config.name).value.id &&
      r.value.comment == config.comment && r.value.buyPrice == config.buyPrice &&
      r.value.sellPrice == config.sellPrice && r.value.profiles == config.profiles.GetOr([])
  {
    match FindItemByName(items, config.name)
    case None => None
    case Some(item) => Some(WishListItem(item.id, config.comment, config.buyPrice, config.sellPrice, config.profiles.GetOr([])))
  }

  /** loadWishList with the configuration already decoded. */
  function LoadWishList(items: seq<Item>, configs: seq<WishListItemConfig>): seq<WishListItem> {
    MapNotNull(configs, config => Entry(items, config))
  }

  /**
   * The configuration is read entry by entry in order: the list of a concatenation is
   * the concatenation of the lists, and one entry gives its wish-list entry or, when
   * no item carries its name, nothing.
   */
  lemma LoadWishListOrder(items: seq<Item>, a: seq<WishListItemConfig>, b: seq<WishListItemConfig>, config: WishListItemConfig)
    ensures LoadWishList(items, a + b) == LoadWishList(items, a) + LoadWishList(items, b)
    ensures LoadWishList(items, [config]) ==
      if forall k :: 0 <= k < |items| ==> !Named(items[k], config.name) then []
      else [WishListItem(FindItemByName(items, config.name).value.id, config.comment, config.buyPrice,
                         config.sellPrice, config.profiles.GetOr([]))]
  {
    MapNotNullAppend(a, b, config => Entry(items, config));
    MapNotNullOne(config, config => Entry(items, config));
  }

  /** Every loaded entry comes from a configured entry whose name some item carries. */
  lemma LoadWishListSources(items: seq<Item>, configs: seq<WishListItemConfig>, w: WishListItem)
    requires w in LoadWishList(items, configs)
    ensures exists config :: config in configs && Entry(items, config) == Some(w)
    ensures exists k :: 0 <= k < |items| && items[k].id == w.id
  {
    var config :| config in configs && Entry(items, config) == Some(w);
    var item := FindItemByName(items, config.name).value;
    var k :| 0 <= k < |items| && items[k] == item && Named(item, config.name) && Before(items, k, config.name);
  }
}
