/** The saved-states key file: per type a "soft" and a "prev-soft" entry (urf-config.c). */
module Persistence {
  import opened KillswitchState

  /** The options the protocol depends on; they do not change while the daemon runs. */
  datatype Config = Config(strict: bool, persist: bool, forceSync: bool)

  /** The file's contents; a missing entry reads as false. */
  datatype Saved = Saved(soft: map<int, bool>, prevSoft: map<int, bool>)

  const EMPTY_FILE := Saved(map[], map[])

  /** Strict flight mode ties WWAN to flight mode: it keeps no entries of its own. */
  predicate Shielded(cfg: Config, typ: int) {
    typ == TYPE_WWAN && cfg.strict
  }

  function Entry(entries: map<int, bool>, typ: int): bool {
    typ in entries && entries[typ]
  }

  function GetPersistState(cfg: Config, saved: Saved, typ: int): bool {
    Entry(saved.soft, if Shielded(cfg, typ) then TYPE_ALL else typ)
  }

  function GetPrevSoft(cfg: Config, saved: Saved, typ: int): bool {
    !Shielded(cfg, typ) && Entry(saved.prevSoft, typ)
  }

  /** blocked stands for a killswitch state above Unblocked. */
  function SetPersistState(cfg: Config, saved: Saved, typ: int, blocked: bool): Saved {
    if Shielded(cfg, typ) then saved else saved.(soft := saved.soft[typ := blocked])
  }

  function SetPrevSoft(cfg: Config, saved: Saved, typ: int, blocked: bool): Saved {
    if Shielded(cfg, typ) then saved else saved.(prevSoft := saved.prevSoft[typ := blocked])
  }

  /** What is written is read back, by its own type and no other.  Under strict
      flight mode WWAN is written nowhere: its state is flight mode's own, and
      nothing is remembered of it, whatever the file holds. */
  lemma WrittenIsRead(cfg: Config, saved: Saved, typ: int, other: int, blocked: bool)
    requires other != typ
    ensures var strictWwan, after := typ == TYPE_WWAN && cfg.strict, SetPersistState(cfg, saved, typ, blocked);
      && (!strictWwan ==> GetPersistState(cfg, after, typ) == blocked)
      && (strictWwan ==> after == saved && GetPersistState(cfg, after, typ) == GetPersistState(cfg, saved, TYPE_ALL))
      && after.prevSoft == saved.prevSoft
      && (!(other == TYPE_WWAN && cfg.strict) ==>
            GetPersistState(cfg, after, other) == GetPersistState(cfg, saved, other))
    ensures var strictWwan, after := typ == TYPE_WWAN && cfg.strict, SetPrevSoft(cfg, saved, typ, blocked);
      && GetPrevSoft(cfg, after, typ) == (blocked && !strictWwan)
      && (strictWwan ==> after == saved)
      && after.soft == saved.soft && GetPrevSoft(cfg, after, other) == GetPrevSoft(cfg, saved, other)
    ensures GetPersistState(cfg, EMPTY_FILE, typ) == GetPrevSoft(cfg, EMPTY_FILE, typ) == false
  {
  }
}
