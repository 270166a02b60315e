/**
 * The argument-generator registry of the web-users load generator
 * (workload/registry.go): a fixed table from generator names to the
 * functions that produce a request's form values, and the rule that turns
 * one argument into a form value. JSON encoding (json.Marshal) is outside
 * the model and enters as a function parameter.
 */
module Registry {
  import opened Common

  /** The generator functions the table can point at, one per Go function. */
  datatype Generator =
    | UserHandler | SearchHandler | RecommendHandler | ReservationHandler
    | SnReadHomeTimeline | SnReadUserTimeline | SnComposePost
    | SockshopGetCart | SockshopDeleteCart | SockshopRemoveItem | SockshopAddItem
    | SockshopUpdateItem | SockshopListItems | SockshopGetSock | SockshopListTags
    | SockshopNewOrder | SockshopGetOrders | SockshopGetOrder | SockshopLogin
    | SockshopRegister | SockshopGetUser | SockshopGetAddress | SockshopPostAddress
    | SockshopGetCard | SockshopPostCard | SockshopLoadCatalogue

  /** The Go identifier of each generator. */
  function FunctionName(g: Generator): string
  {
    match g
    case UserHandler => "UserHandler"
    case SearchHandler => "SearchHandler"
    case RecommendHandler => "RecommendHandler"
    case ReservationHandler => "ReservationHandler"
    case SnReadHomeTimeline => "sn_ReadHomeTimeline"
    case SnReadUserTimeline => "sn_ReadUserTimeline"
    case SnComposePost => "sn_ComposePost"
    case SockshopGetCart => "sockshop_GetCart"
    case SockshopDeleteCart => "sockshop_DeleteCart"
    case SockshopRemoveItem => "sockshop_RemoveItem"
    case SockshopAddItem => "sockshop_AddItem"
    case SockshopUpdateItem => "sockshop_UpdateItem"
    case SockshopListItems => "sockshop_ListItems"
    case SockshopGetSock => "sockshop_GetSock"
    case SockshopListTags => "sockshop_ListTags"
    case SockshopNewOrder => "sockshop_NewOrder"
    case SockshopGetOrders => "sockshop_GetOrders"
    case SockshopGetOrder => "sockshop_GetOrder"
    case SockshopLogin => "sockshop_Login"
    case SockshopRegister => "sockshop_Register"
    case SockshopGetUser => "sockshop_GetUser"
    case SockshopGetAddress => "sockshop_GetAddress"
    case SockshopPostAddress => "sockshop_PostAddress"
    case SockshopGetCard => "sockshop_GetCard"
    case SockshopPostCard => "sockshop_PostCard"
    case SockshopLoadCatalogue => "sockshop_LoadCatalogue"
  }

  /** The generators NewWorkloadRegistry assigns, in order; each is stored
      under the key KeyOf gives it (below). The leaf entry is commented
      out. */
  const ASSIGNED: seq<Generator> := [
    UserHandler, SearchHandler, RecommendHandler, ReservationHandler,
    SnReadHomeTimeline, SnReadUserTimeline, SnComposePost, SockshopGetCart,
    SockshopDeleteCart, SockshopRemoveItem, SockshopAddItem,
    SockshopUpdateItem, SockshopListItems, SockshopGetSock, SockshopListTags,
    SockshopNewOrder, SockshopGetOrders, SockshopGetOrder, SockshopLogin,
    SockshopRegister, SockshopGetUser, SockshopGetAddress,
    SockshopPostAddress, SockshopGetCard, SockshopPostCard,
    SockshopLoadCatalogue
  ]

  /** The (key, generator) pairs in assignment order. */
  function Entries(): (es: seq<(string, Generator)>)
    ensures |es| == |ASSIGNED|
    ensures forall i :: 0 <= i < |es| ==> es[i] == (KeyOf(ASSIGNED[i]), ASSIGNED[i])
  {
    seq(|ASSIGNED|, i requires 0 <= i < |ASSIGNED| => (KeyOf(ASSIGNED[i]), ASSIGNED[i]))
  }

  /** The map the assignments build, a later assignment to the same key
      replacing an earlier one. */
  function Build(entries: seq<(string, Generator)>): map<string, Generator>
  {
    if |entries| == 0 then map[]
    else
      var e := entries[|entries| - 1];
      Build(entries[..|entries| - 1])[e.0 := e.1]
  }

  function NewWorkloadRegistry(): map<string, Generator>
  {
    Build(Entries())
  }

  /** The registered generator for `name`, or None (Go's nil). */
  function GetGeneratorFunction(registry: map<string, Generator>, name: string): (g: Option<Generator>)
    ensures g.Some? <==> name in registry
    ensures g.Some? ==> g.value == registry[name]
  {
    if name in registry then Some(registry[name]) else None
  }

  /** The naming rule of the table: a generator's function name, with
      "hotel_" in front for the hotel handlers. */
  function KeyOf(g: Generator): string
  {
    if IsHotel(g) then "hotel_" + FunctionName(g) else FunctionName(g)
  }

  predicate IsHotel(g: Generator)
  {
    g.UserHandler? || g.SearchHandler? || g.RecommendHandler? || g.ReservationHandler?
  }

  /** Where each generator is assigned in the table. */
  function EntryOf(g: Generator): (i: nat)
    ensures i < |ASSIGNED| && ASSIGNED[i] == g
  {
    match g
    case UserHandler => 0
    case SearchHandler => 1
    case RecommendHandler => 2
    case ReservationHandler => 3
    case SnReadHomeTimeline => 4
    case SnReadUserTimeline => 5
    case SnComposePost => 6
    case SockshopGetCart => 7
    case SockshopDeleteCart => 8
    case SockshopRemoveItem => 9
    case SockshopAddItem => 10
    case SockshopUpdateItem => 11
    case SockshopListItems => 12
    case SockshopGetSock => 13
    case SockshopListTags => 14
    case SockshopNewOrder => 15
    case SockshopGetOrders => 16
    case SockshopGetOrder => 17
    case SockshopLogin => 18
    case SockshopRegister => 19
    case SockshopGetUser => 20
    case SockshopGetAddress => 21
    case SockshopPostAddress => 22
    case SockshopGetCard => 23
    case SockshopPostCard => 24
    case SockshopLoadCatalogue => 25
  }

  /** Every key of a built map comes from some assignment, and holds that
      assignment's generator. */
  lemma {:induction false} BuildLookup(entries: seq<(string, Generator)>, k: string)
    ensures k in Build(entries) <==> exists i :: 0 <= i < |entries| && entries[i].0 == k
    ensures k in Build(entries) ==>
      exists i :: 0 <= i < |entries| && entries[i].0 == k && Build(entries)[k] == entries[i].1
  {
    if |entries| > 0 {
      var n := |entries| - 1;
      BuildLookup(entries[..n], k);
      if exists i :: 0 <= i < |entries| && entries[i].0 == k {
        var i :| 0 <= i < |entries| && entries[i].0 == k;
        if i < n {
          assert entries[..n][i].0 == k;
        }
      }
      if k in Build(entries[..n]) && k != entries[n].0 {
        var i :| 0 <= i < n && entries[..n][i].0 == k && Build(entries[..n])[k] == entries[..n][i].1;
        assert entries[i].0 == k;
      }
    }
  }

  /** Every key of the registry leads to the generator the naming rule
      names that way. */
  lemma {:induction false} KeysFollowNamingRule(k: string)
    requires k in NewWorkloadRegistry()
    ensures KeyOf(NewWorkloadRegistry()[k]) == k
  {
    BuildLookup(Entries(), k);
    var i :| 0 <= i < |Entries()| && Entries()[i].0 == k && Build(Entries())[k] == Entries()[i].1;
  }

  /** Every generator is registered, under its name by the rule. */
  lemma {:induction false} EveryGeneratorRegistered(g: Generator)
    ensures GetGeneratorFunction(NewWorkloadRegistry(), KeyOf(g)).Some?
  {
    var i := EntryOf(g);
    assert Entries()[i].0 == KeyOf(g);
    BuildLookup(Entries(), KeyOf(g));
  }

  /** A sock-shop key leads to the function of the same name. */
  lemma {:induction false} SockshopKeysNamed(name: string)
    requires name in NewWorkloadRegistry() && StartsWith(name, "sockshop_")
    ensures FunctionName(GetGeneratorFunction(NewWorkloadRegistry(), name).value) == name
  {
    KeysFollowNamingRule(name);
    assert name[0] == 's';
  }

  /** Different names never lead to the same generator. */
  lemma {:induction false} RegistryInjective(a: string, b: string)
    requires a in NewWorkloadRegistry() && b in NewWorkloadRegistry() && a != b
    ensures NewWorkloadRegistry()[a] != NewWorkloadRegistry()[b]
  {
    KeysFollowNamingRule(a);
    KeysFollowNamingRule(b);
  }

  /** Registered names start with "hotel_", "sn_" or "sockshop_", so the
      commented-out leaf generator is not found. */
  lemma {:induction false} LeafUnregistered()
    ensures GetGeneratorFunction(NewWorkloadRegistry(), "leaf_Leaf").None?
  {
    if "leaf_Leaf" in NewWorkloadRegistry() {
      KeysFollowNamingRule("leaf_Leaf");
    }
  }

  // ---------------------------------------------------------------------
  // Arguments
  // ---------------------------------------------------------------------

  /** The dynamic kinds of argument the generators pass. */
  datatype Arg = Str(s: string) | Int(i: int) | StrList(items: seq<string>)

  /** The form value of an argument: a string is passed as it is when the
      original (unencoded) form is asked for; everything else, and a string
      otherwise, is its JSON encoding `marshal(arg)`. */
  function PrepareArg(arg: Arg, isOriginal: bool, marshal: Arg -> string): (v: string)
    ensures isOriginal && arg.Str? ==> v == arg.s
    ensures !(isOriginal && arg.Str?) ==> v == marshal(arg)
  {
    if isOriginal && arg.Str? then arg.s else marshal(arg)
  }
}
