/**
 * The statement builders of internal/infrastructure/repositories/
 * user_settings_repository_impl.go: `Patch`, which numbers one `<setting> =
 * $i` clause per update while it walks the map, and `Reset`.
 *
 * Go visits a map in an unspecified order; the order of that walk is a
 * parameter, `order`, which lists every key of the map once.
 */
module SettingsRepository {
  import opened Wrappers
  import Numerals
  import Strs
  import Uuids
  import DomainSettings

  /** An argument of a settings statement: an update's value, passed as the caller gave it, or the user id. */
  datatype SettingArg<V> = Value(v: V) | UserId(id: Uuids.Uuid)

  /** A statement sent with `ExecContext`. */
  datatype Exec<V> = Exec(query: string, args: seq<SettingArg<V>>)

  /** `invalid setting: <key>` from the builder, or the database's own failure. */
  datatype SettingsError = InvalidSetting(setting: string) | ExecFailed

  /** `order` is a walk of the map: each of its keys, once. */
  ghost predicate IsWalkOf<V>(order: seq<string>, updates: map<string, V>)
  {
    && (forall k :: k in updates <==> k in order)
    && (forall i, j :: 0 <= i < j < |order| ==> order[i] != order[j])
  }

  /** One clause `<setting> = $<i>`. */
  function Clause(setting: string, i: nat): string
  {
    setting + (" = $" + Numerals.NatToString(i))
  }

  /** The clauses for a walk, numbered from 1 in walk order. */
  function Clauses(order: seq<string>): seq<string>
  {
    if order == [] then [] else Clauses(order[..|order| - 1]) + [Clause(order[|order| - 1], |order|)]
  }

  /** The values of the walked keys, in walk order. */
  function Values<V>(updates: map<string, V>, order: seq<string>): seq<SettingArg<V>>
    requires forall i :: 0 <= i < |order| ==> order[i] in updates
  {
    if order == [] then [] else Values(updates, order[..|order| - 1]) + [Value(updates[order[|order| - 1]])]
  }

  /** The first key of the walk that is not an allowed setting. */
  function FirstInvalid(order: seq<string>): Option<string>
  {
    if order == [] then None
    else if FirstInvalid(order[..|order| - 1]).Some? then FirstInvalid(order[..|order| - 1])
    else if !DomainSettings.IsValid(order[|order| - 1]) then Some(order[|order| - 1])
    else None
  }

  /** The statement `Patch` sends for a walk of valid keys. */
  function PatchStatement<V>(user: Uuids.Uuid, updates: map<string, V>, order: seq<string>): Exec<V>
    requires forall i :: 0 <= i < |order| ==> order[i] in updates
  {
    Exec("UPDATE user_settings SET "
         + (Strs.Join(Clauses(order), ", ")
         + (", updated_at = now() WHERE user_id = $" + Numerals.NatToString(|order| + 1))),
         Values(updates, order) + [UserId(user)])
  }

  /** The statement `Reset` sends: the one column set to false. */
  function ResetStatement<V>(user: Uuids.Uuid, setting: string): Exec<V>
  {
    Exec("UPDATE user_settings SET " + (setting + " = false, updated_at = now() WHERE user_id = $1"), [UserId(user)])
  }

  // ---- properties of the builder ------------------------------------------

  /** Clause `j` names the `j`-th key of the walk and its placeholder is `$(j+1)`. */
  lemma {:induction false} ClausesNumbered(order: seq<string>)
    ensures |Clauses(order)| == |order|
    ensures forall j :: 0 <= j < |order| ==> Clauses(order)[j] == Clause(order[j], j + 1)
  {
    if order != [] {
      var init := order[..|order| - 1];
      ClausesNumbered(init);
      assert forall j :: 0 <= j < |init| ==> init[j] == order[j];
    }
  }

  /** Argument `j` is the value of the `j`-th key of the walk. */
  lemma {:induction false} ValuesInOrder<V>(updates: map<string, V>, order: seq<string>)
    requires forall i :: 0 <= i < |order| ==> order[i] in updates
    ensures |Values(updates, order)| == |order|
    ensures forall j :: 0 <= j < |order| ==> Values(updates, order)[j] == Value(updates[order[j]])
  {
    if order != [] {
      var init := order[..|order| - 1];
      ValuesInOrder(updates, init);
      assert forall j :: 0 <= j < |init| ==> init[j] == order[j];
    }
  }

  /** `FirstInvalid` finds the earliest key outside `AllowedSettings`, and finds none exactly when every key is allowed. */
  lemma {:induction false} FirstInvalidIsFirst(order: seq<string>)
    ensures FirstInvalid(order) == None <==> forall j :: 0 <= j < |order| ==> DomainSettings.IsValid(order[j])
    ensures FirstInvalid(order).Some? ==>
              exists j :: (0 <= j < |order| && order[j] == FirstInvalid(order).value
                           && !DomainSettings.IsValid(order[j]) && forall i :: 0 <= i < j ==> DomainSettings.IsValid(order[i]))
  {
    if order != [] {
      var init := order[..|order| - 1];
      FirstInvalidIsFirst(init);
      assert forall j :: 0 <= j < |init| ==> init[j] == order[j];
      if FirstInvalid(init).Some? {
        var j :| 0 <= j < |init| && init[j] == FirstInvalid(init).value
                 && !DomainSettings.IsValid(init[j]) && forall i :: 0 <= i < j ==> DomainSettings.IsValid(init[i]);
        assert order[j] == FirstInvalid(order).value;
      } else if !DomainSettings.IsValid(order[|order| - 1]) {
        assert order[|order| - 1] == FirstInvalid(order).value;
      }
    }
  }

  /**
   * Every placeholder is bound to the argument it names: `$(j+1)` in clause `j`
   * to the value of that clause's key, and the WHERE placeholder `$(n+1)` to
   * the user id, the last of exactly `n + 1` arguments.
   */
  lemma PlaceholdersBind<V>(user: Uuids.Uuid, updates: map<string, V>, order: seq<string>)
    requires forall i :: 0 <= i < |order| ==> order[i] in updates
    ensures var st := PatchStatement(user, updates, order);
      && |st.args| == |order| + 1 && |Clauses(order)| == |order|
      && st.args[|order|] == UserId(user)
      && forall j :: 0 <= j < |order| ==> Clauses(order)[j] == Clause(order[j], j + 1) && st.args[j] == Value(updates[order[j]])
  {
    ClausesNumbered(order);
    ValuesInOrder(updates, order);
  }

  /** A single update gives `UPDATE user_settings SET <key> = $1, updated_at = now() WHERE user_id = $2`. */
  lemma SingleUpdate<V>(user: Uuids.Uuid, setting: string, value: V)
    ensures PatchStatement(user, map[setting := value], [setting])
            == Exec("UPDATE user_settings SET " + (setting + " = $1" + (", updated_at = now() WHERE user_id = $" + "2")),
                    [Value(value), UserId(user)])
  {
    assert [setting][..0] == [];
    assert Numerals.NatToString(1) == "1" && Numerals.NatToString(2) == "2";
    assert Clauses([setting]) == [Clause(setting, 1)];
    assert Clause(setting, 1) == setting + " = $1" by {
      assert " = $" + "1" == " = $1";
    }
    assert Values(map[setting := value], [setting]) == [Value(value)];
  }

  // ---- the repository -----------------------------------------------------

  class SettingsRepository<V> {
    /** The statements sent to the database, in order. */
    var sent: seq<Exec<V>>

    constructor()
      ensures sent == []
    {
      sent := [];
    }

    /**
     * `Patch`: nothing to do for an empty map; the first key of the walk that
     * is not allowed stops it before anything is sent; otherwise one statement
     * with a clause per key is sent, and the database's error is returned.
     */
    method Patch(user: Uuids.Uuid, updates: map<string, V>, order: seq<string>, dbError: bool)
        returns (err: Option<SettingsError>)
      requires IsWalkOf(order, updates)
      modifies this
      ensures |updates| == 0 ==> err == None && sent == old(sent)
      ensures |updates| != 0 && FirstInvalid(order).Some? ==>
                err == Some(InvalidSetting(FirstInvalid(order).value)) && sent == old(sent)
      ensures |updates| != 0 && FirstInvalid(order).None? ==>
                && sent == old(sent) + [PatchStatement(user, updates, order)]
                && err == (if dbError then Some(ExecFailed) else None)
    {
      if |updates| == 0 {
        return None;
      }
      var setClauses: seq<string> := [];
      var args: seq<SettingArg<V>> := [];
      var i := 1;
      while i <= |order|
        invariant 1 <= i <= |order| + 1
        invariant FirstInvalid(order[..i - 1]) == None
        invariant setClauses == Clauses(order[..i - 1])
        invariant args == Values(updates, order[..i - 1])
      {
        var setting := order[i - 1];
        assert order[..i][..i - 1] == order[..i - 1];
        if !DomainSettings.IsValid(setting) {
          FirstInvalidKept(order, i);
          return Some(InvalidSetting(setting));
        }
        setClauses := setClauses + [Clause(setting, i)];
        args := args + [Value(updates[setting])];
        i := i + 1;
      }
      assert order[..|order|] == order;
      var query := "UPDATE user_settings SET " + (Strs.Join(setClauses, ", ")
                   + (", updated_at = now() WHERE user_id = $" + Numerals.NatToString(i)));
      args := args + [UserId(user)];
      sent := sent + [Exec(query, args)];
      err := if dbError then Some(ExecFailed) else None;
    }

    /** `Reset`: an invalid setting is refused before anything is sent; otherwise its column is set to false. */
    method Reset(user: Uuids.Uuid, setting: string, dbError: bool) returns (err: Option<SettingsError>)
      modifies this
      ensures !DomainSettings.IsValid(setting) ==> err == Some(InvalidSetting(setting)) && sent == old(sent)
      ensures DomainSettings.IsValid(setting) ==>
                sent == old(sent) + [ResetStatement(user, setting)] && err == (if dbError then Some(ExecFailed) else None)
    {
      if !DomainSettings.IsValid(setting) {
        return Some(InvalidSetting(setting));
      }
      sent := sent + [ResetStatement(user, setting)];
      err := if dbError then Some(ExecFailed) else None;
    }
  }

  /** A walk stopped at an invalid key reports it as the first invalid key of the whole walk. */
  lemma FirstInvalidKept(order: seq<string>, i: nat)
    requires 1 <= i <= |order|
    requires FirstInvalid(order[..i - 1]) == None
    requires !DomainSettings.IsValid(order[i - 1])
    ensures FirstInvalid(order) == Some(order[i - 1])
  {
    assert order[..i][..i - 1] == order[..i - 1];
    assert FirstInvalid(order[..i]) == Some(order[i - 1]);
    FirstInvalidExtends(order, i);
  }

  /** Once a prefix of the walk has an invalid key, every longer prefix reports the same one. */
  lemma {:induction false} FirstInvalidExtends(order: seq<string>, i: nat)
    requires i <= |order|
    requires FirstInvalid(order[..i]).Some?
    ensures FirstInvalid(order) == FirstInvalid(order[..i])
    decreases |order| - i
  {
    if i < |order| {
      assert order[..i + 1][..i] == order[..i];
      FirstInvalidExtends(order, i + 1);
    } else {
      assert order[..i] == order;
    }
  }
}
