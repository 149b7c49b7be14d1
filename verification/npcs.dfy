/** The world's two NPCs and their interaction gate: proximity tracking and
    the interact handler, which opens the shop for the merchant and a dialog
    for anyone else, only for the player and only while no dialog or shop is
    open. */
module Npcs {
  import opened Types
  import Game
  import Store

  datatype NpcData = NpcData(id: string, name: string, color: string, position: Vec3,
                             dialogLines: seq<string>, isMerchant: bool)

  const Guide := NpcData("guide-npc", "The Guide", "#facc15", Vec3(-5.0, 0.8, 5.0), [
    "Welcome to The Circle Realms, traveler!",
    "Use WASD to move - W goes forward from your view.",
    "Click to shoot your weapon at enemies.",
    "The outer ring is The Wilds - it's dangerous there!",
    "Kill enemies to collect coins and buy better weapons!",
    "Good luck out there!"], false)

  const Merchant := NpcData("merchant-npc", "The Merchant", "#f97316", Vec3(5.0, 0.8, -5.0), [], true)

  const WorldNpcs: seq<NpcData> := [Guide, Merchant]

  /** The colliding body is the player: its user data names the type
      "player".  A body without user data has no type. */
  predicate IsPlayer(otherType: Option<string>) {
    otherType == Some("player")
  }

  /** The interact handler on a store state. */
  function Interact(s: Game.State, npc: NpcData, otherType: Option<string>): (r: Game.State)
    ensures !IsPlayer(otherType) || s.dialog.isOpen || s.isShopOpen ==> r == s
    ensures npc.isMerchant ==> r.dialog == s.dialog
    ensures IsPlayer(otherType) && !s.dialog.isOpen && !s.isShopOpen ==>
      && r.isPaused
      && (npc.isMerchant ==> r == s.(isShopOpen := true, isPaused := true))
      && (!npc.isMerchant ==> r == s.(dialog := Game.Dialog(true, npc.name, npc.dialogLines, 0), isPaused := true))
    ensures Game.Valid(s) ==> Game.Valid(r)
  {
    if IsPlayer(otherType) && !s.dialog.isOpen && !s.isShopOpen then
      if npc.isMerchant then Game.OpenShop(s) else Game.OpenDialog(s, npc.name, npc.dialogLines)
    else s
  }

  /** An interaction that fires leaves a dialog or the shop open, so no
      further interaction, with either NPC, fires until it is closed. */
  lemma InteractionsDoNotStack(s: Game.State, a: NpcData, b: NpcData, t1: Option<string>, t2: Option<string>)
    ensures var once := Interact(s, a, t1);
      once != s ==> Interact(once, b, t2) == once
    ensures IsPlayer(t1) && !s.dialog.isOpen && !s.isShopOpen ==>
      Interact(Interact(s, a, t1), b, t2) == Interact(s, a, t1)
  {
    var once := Interact(s, a, t1);
    if IsPlayer(t1) && !s.dialog.isOpen && !s.isShopOpen {
      if a.isMerchant {
        assert once.isShopOpen;
      } else {
        assert once.dialog.isOpen;
      }
    }
  }

  /** The merchant never opens a dialog, and the guide's dialog has six
      lines. */
  lemma RosterShape()
    ensures Merchant.isMerchant && Merchant.dialogLines == []
    ensures !Guide.isMerchant && |Guide.dialogLines| == 6
    ensures forall s, t :: Interact(s, Merchant, t).dialog == s.dialog
  {
  }

  class Npc {
    const data: NpcData
    var isNear: bool

    constructor (data: NpcData)
      ensures this.data == data && !isNear
    {
      this.data := data;
      isNear := false;
    }

    /** The player entering the sensor makes the NPC near; other bodies are
        ignored. */
    method ProximityEnter(otherType: Option<string>)
      modifies this
      ensures isNear == (IsPlayer(otherType) || old(isNear))
    {
      if IsPlayer(otherType) {
        isNear := true;
      }
    }

    /** The player leaving the sensor makes the NPC not near; other bodies
        are ignored. */
    method ProximityExit(otherType: Option<string>)
      modifies this
      ensures isNear == (!IsPlayer(otherType) && old(isNear))
    {
      if IsPlayer(otherType) {
        isNear := false;
      }
    }

    /** handleInteract, through the store actions. */
    method HandleInteract(store: Store.GameStore, otherType: Option<string>)
      modifies store
      ensures store.state == Interact(old(store.state), data, otherType)
      ensures old(store.Valid()) ==> store.Valid()
    {
      if IsPlayer(otherType) && !store.state.dialog.isOpen && !store.state.isShopOpen {
        if data.isMerchant {
          store.OpenShop();
        } else {
          store.OpenDialog(data.name, data.dialogLines);
        }
      }
    }
  }
}
