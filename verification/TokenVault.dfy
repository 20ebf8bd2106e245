/** The token vault: a map from provider and account to records, kept in files that may fail at any call. */
module TokenVault {
  import opened Basics
  import opened VaultDocument
  import opened VaultFiles

  datatype VaultError = RecordAlreadyExists | RecordNotFound | StorageFailed

  datatype Material = Material(access: string, refresh: Option<string>, lifetime: int, scopes: seq<string>)

  /** Which calls fail: the read, the removal of these temporary files or of the displaced file after it,
      the first rename, the call with the given number of the write, and the two calls that roll it back. */
  datatype Faults = Faults(read: bool, kept: set<nat>, previousKept: bool, renameRefused: bool, write: Option<nat>,
                           discardFails: bool, restoreFails: bool)

  function Initial(m: Material, now: int): Record
    requires m.refresh.Some?
  {
    Record(m.access, m.refresh.value, now + m.lifetime * 1000, m.scopes, 1, now, now)
  }

  function Rotated(r: Record, m: Material, now: int): Record {
    Record(m.access, if m.refresh.Some? then m.refresh.value else r.refresh, now + m.lifetime * 1000, m.scopes,
           r.generation + 1, r.createdAt, now)
  }

  function OfOthers(d: Document, provider: Provider): Document {
    map k | k in d && k.provider != provider :: d[k]
  }

  lemma {:induction false} NamesAreBounded(names: set<nat>) returns (bound: nat)
    ensures forall t :: t in names ==> t < bound
  {
    if names == {} {
      bound := 0;
    } else {
      var t :| t in names;
      var rest := NamesAreBounded(names - {t});
      bound := if t < rest then rest else t + 1;
      assert names == (names - {t}) + {t};
    }
  }

  lemma SomeNameIsFree(names: set<nat>)
    ensures exists t: nat :: t !in names
  {
    var bound := NamesAreBounded(names);
    assert bound !in names;
  }

  class TokenVault {
    var vault: Vault

    ghost predicate Valid()
      reads this
    {
      Inv(vault) && vault.op.Idle?
    }

    /** The map that the files stand for. */
    ghost function Contents(): Document
      reads this
    {
      Resolve(vault)
    }

    constructor ()
      ensures Valid() && Contents() == EMPTY
    {
      vault := FRESH;
    }

    method Do(e: Event)
      requires Inv(vault) && Enabled(e, vault)
      modifies this
      ensures vault == Apply(e, old(vault)) && Inv(vault)
      ensures !Writing(old(vault).op) ==> Contents() == old(Contents())
      ensures Writing(old(vault).op) && old(Contents()) in {old(vault).op.before, old(vault).op.after} ==>
                Contents() in {old(vault).op.before, old(vault).op.after}
    {
      StepKeepsInv(e, vault);
      StepStuttersOrSwitches(e, vault);
      vault := Apply(e, vault);
    }

    /** Finds the main file, or puts the displaced file in its place. */
    method FindDocument()
      requires Valid()
      modifies this
      ensures Inv(vault) && vault.op == Cleaning(Contents()) && Contents() == old(Contents())
      ensures vault.temps == old(vault).temps
      ensures vault.main.Some? <==> old(vault).main.Some? || old(vault).previous.Some?
    {
      Do(Start);
      if vault.main.Some? {
        Do(FindMain);
      } else {
        Do(MissMain);
        if vault.previous.Some? {
          Do(RecoverPrevious);
        } else {
          Do(MissPrevious);
        }
      }
    }

    /** While it cleans up, the vault differs only in what debris there still is. */
    ghost predicate Tidying(v: Vault, temps: set<nat>)
      reads this
    {
      Inv(vault) && vault.op == Cleaning(Contents()) && vault.temps.Keys == temps && vault == v.(temps := vault.temps)
    }

    method DropTemp(t: nat, ghost v: Vault, ghost temps: set<nat>)
      requires Tidying(v, temps)
      modifies this
      ensures Tidying(v, temps - {t}) && Contents() == old(Contents())
    {
      Do(RemoveTemp(t));
    }

    method DropTemps(kept: set<nat>)
      requires Inv(vault) && vault.op == Cleaning(Contents())
      modifies this
      ensures Tidying(old(vault), old(vault).temps.Keys * kept) && Contents() == old(Contents())
    {
      ghost var v, temps := vault, vault.temps.Keys;
      var left := vault.temps.Keys - kept;
      assert temps == (temps * kept) + left;
      while left != {}
        invariant Tidying(v, (temps * kept) + left) && Contents() == old(Contents()) && left !! kept
        decreases |left|
      {
        var t :| t in left;
        DropTemp(t, v, (temps * kept) + left);
        assert (temps * kept) + left - {t} == (temps * kept) + (left - {t});
        left := left - {t};
      }
      assert (temps * kept) + left == temps * kept;
    }

    /** Removes debris as far as it can be removed. */
    method CleanUp(faults: Faults)
      requires Inv(vault) && vault.op == Cleaning(Contents())
      modifies this
      ensures Inv(vault) && vault.op == Cleaning(Contents()) && Contents() == old(Contents())
      ensures vault.temps.Keys == old(vault).temps.Keys * faults.kept
      ensures vault.main == old(vault).main && (faults.previousKept || vault.previous.None?)
    {
      if !faults.previousKept {
        Do(RemovePrevious);
      }
      DropTemps(faults.kept);
    }

    /** Recovers a displaced file, removes debris, and finds the document; debris that cannot be removed stays. */
    method ReadDocument(faults: Faults) returns (r: Result<Document, VaultError>)
      requires Valid()
      modifies this
      ensures Inv(vault) && Contents() == old(Contents())
      ensures r.Ok? <==> !faults.read
      ensures r.Ok? ==> vault.op == Loaded(Contents()) && r.value == Contents() && vault.temps.Keys == old(vault).temps.Keys * faults.kept
      ensures r.Ok? ==> (vault.main.Some? <==> old(vault).main.Some? || old(vault).previous.Some?)
      ensures r.Err? ==> vault == old(vault) && r == Err(StorageFailed)
    {
      if faults.read {
        return Err(StorageFailed);
      }
      FindDocument();
      CleanUp(faults);
      Do(FinishLoad);
      return Ok(vault.op.found);
    }

    /** Replaces the document: by rename, or by way of the displaced file when the rename is refused. */
    method WriteDocument(document: Document, faults: Faults) returns (done: bool)
      requires Inv(vault) && vault.op == Loaded(Contents())
      modifies this
      ensures Valid()
      ensures done ==> Contents() == document
      ensures !done ==> Contents() == old(Contents()) || Contents() == document
      ensures done <== faults.write.None? && (old(vault).main.Some? || !faults.renameRefused)
    {
      SomeNameIsFree(vault.temps.Keys);
      var temp: nat :| temp !in vault.temps;
      Do(BeginWrite(document, temp));
      if faults.write == Some(0) {
        Do(Stop);
        return false;
      }
      Do(FillTemp);
      if faults.renameRefused {
        Do(RefuseRename);
        done := WriteByDisplacing(faults);
      } else {
        done := WriteByRename(faults.write);
      }
    }

    method WriteByRename(fault: Option<nat>) returns (done: bool)
      requires Inv(vault) && vault.op.Renaming? && vault.op.temp in vault.temps
      modifies this
      ensures Valid()
      ensures done ==> Contents() == old(vault).op.after
      ensures !done ==> Contents() == old(vault).op.before || Contents() == old(vault).op.after
      ensures done <== fault.None?
    {
      Do(RenameTemp);
      if fault == Some(1) {
        Do(Stop);
        return false;
      }
      Do(Acknowledge);
      return true;
    }

    /** Moves the main file aside, installs the new one, and drops the old one; rolls back when installing fails. */
    method WriteByDisplacing(faults: Faults) returns (done: bool)
      requires Inv(vault) && vault.op.Refused? && vault.op.temp in vault.temps
      modifies this
      ensures Valid()
      ensures done ==> Contents() == old(vault).op.after
      ensures !done ==> Contents() == old(vault).op.before || Contents() == old(vault).op.after
      ensures done <== faults.write.None? && old(vault).main.Some?
    {
      Do(RemoveStale(faults.write != Some(2)));
      if vault.main.None? || faults.write == Some(3) {
        Do(Stop);
        return false;
      }
      Do(Displace);
      if faults.write == Some(4) {
        RollBackWrite(faults);
        return false;
      }
      done := InstallBesideDisplaced(faults);
    }

    method InstallBesideDisplaced(faults: Faults) returns (done: bool)
      requires Inv(vault) && vault.op.Installing? && vault.op.temp in vault.temps
      modifies this
      ensures Valid()
      ensures done ==> Contents() == old(vault).op.after
      ensures !done ==> Contents() == old(vault).op.before || Contents() == old(vault).op.after
      ensures done <== faults.write.None?
    {
      Do(Install);
      if faults.write == Some(5) {
        RollBackWrite(faults);
        return false;
      }
      done := DropAndAcknowledge(faults.write);
    }

    method DropAndAcknowledge(fault: Option<nat>) returns (done: bool)
      requires Inv(vault) && vault.op.Installed?
      modifies this
      ensures Valid() && Contents() == old(vault).op.after
      ensures done <==> fault != Some(6)
    {
      Do(DropDisplaced);
      if fault == Some(6) {
        Do(Stop);
        return false;
      }
      Do(Acknowledge);
      return true;
    }

    method RollBackWrite(faults: Faults)
      requires Inv(vault) && (vault.op.Installing? || vault.op.Installed?)
      modifies this
      ensures Valid()
      ensures Contents() == old(vault).op.before || Contents() == old(vault).op.after
    {
      Do(RollBack);
      Do(Discard(!faults.discardFails));
      Do(Restore(!faults.restoreFails));
    }

    method SaveInitial(key: Key, material: Material, now: int, faults: Faults) returns (r: Result<Document, VaultError>)
      requires Valid() && material.refresh.Some?
      modifies this
      ensures Valid()
      ensures var saved := old(Contents())[key := Initial(material, now)];
              && (r.Ok? ==> key !in old(Contents()) && |old(Contents())| < RECORD_LIMIT && Contents() == r.value == saved)
              && (r.Err? ==> Contents() == old(Contents()) || (r.error.StorageFailed? && key !in old(Contents()) && Contents() == saved))
              && (r == Err(RecordAlreadyExists) <==> !faults.read && key in old(Contents()))
    {
      var read := ReadDocument(faults);
      if read.Err? {
        return read;
      }
      if key in read.value {
        Do(Stop);
        return Err(RecordAlreadyExists);
      }
      if |read.value| >= RECORD_LIMIT {
        Do(Stop);
        return Err(StorageFailed);
      }
      var document := read.value[key := Initial(material, now)];
      var done := WriteDocument(document, faults);
      return if done then Ok(document) else Err(StorageFailed);
    }

    /** A rotation keeps the creation time, and the refresh token unless it brings one, and counts up the generation. */
    method Rotate(key: Key, material: Material, now: int, faults: Faults) returns (r: Result<Document, VaultError>)
      requires Valid()
      modifies this
      ensures Valid()
      ensures r.Ok? ==> key in old(Contents()) && Contents() == r.value == old(Contents())[key := Rotated(old(Contents())[key], material, now)]
      ensures r.Err? ==> Contents() == old(Contents()) || (r.error.StorageFailed? && key in old(Contents())
                         && Contents() == old(Contents())[key := Rotated(old(Contents())[key], material, now)])
      ensures r == Err(RecordNotFound) <==> !faults.read && key !in old(Contents())
    {
      var read := ReadDocument(faults);
      if read.Err? {
        return read;
      }
      if key !in read.value {
        Do(Stop);
        return Err(RecordNotFound);
      }
      var document := read.value[key := Rotated(read.value[key], material, now)];
      var done := WriteDocument(document, faults);
      return if done then Ok(document) else Err(StorageFailed);
    }

    method Lookup(key: Key, faults: Faults) returns (r: Result<Option<Record>, VaultError>)
      requires Valid()
      modifies this
      ensures Valid() && Contents() == old(Contents())
      ensures r.Ok? ==> r.value == if key in old(Contents()) then Some(old(Contents())[key]) else None
      ensures r.Ok? <==> !faults.read
    {
      var read := ReadDocument(faults);
      if read.Err? {
        return Err(read.error);
      }
      Do(Stop);
      return Ok(if key in read.value then Some(read.value[key]) else None);
    }

    method ForgetAccount(key: Key, faults: Faults) returns (r: Result<Document, VaultError>)
      requires Valid()
      modifies this
      ensures Valid()
      ensures r.Ok? ==> Contents() == r.value == old(Contents()) - {key}
      ensures r.Err? ==> Contents() == old(Contents()) || Contents() == old(Contents()) - {key}
    {
      var read := ReadDocument(faults);
      if read.Err? {
        return read;
      }
      if key !in read.value {
        assert read.value - {key} == read.value;
        Do(Stop);
        return read;
      }
      var document := read.value - {key};
      var done := WriteDocument(document, faults);
      return if done then Ok(document) else Err(StorageFailed);
    }

    /** Drops every record of one provider and reports how many there were. */
    method Clear(provider: Provider, faults: Faults) returns (r: Result<nat, VaultError>)
      requires Valid()
      modifies this
      ensures Valid()
      ensures r.Ok? ==> Contents() == OfOthers(old(Contents()), provider) && |Contents()| + r.value == |old(Contents())|
      ensures r.Err? ==> Contents() == old(Contents()) || Contents() == OfOthers(old(Contents()), provider)
    {
      var read := ReadDocument(faults);
      if read.Err? {
        return Err(read.error);
      }
      var document := OfOthers(read.value, provider);
      OthersAreFewer(read.value, provider);
      var cleared := |read.value| - |document|;
      if cleared == 0 {
        Do(Stop);
        return Ok(0);
      }
      var done := WriteDocument(document, faults);
      return if done then Ok(cleared) else Err(StorageFailed);
    }
  }

  lemma {:induction false} OthersAreFewer(d: Document, provider: Provider)
    ensures |OfOthers(d, provider)| <= |d|
    ensures |OfOthers(d, provider)| == |d| ==> OfOthers(d, provider) == d
  {
    var kept := OfOthers(d, provider);
    FewerKeys(kept.Keys, d.Keys);
    assert |kept.Keys| == |kept| && |d.Keys| == |d|;
  }

  lemma {:induction false} FewerKeys(a: set<Key>, b: set<Key>)
    requires a <= b
    ensures |a| <= |b| && (|a| == |b| ==> a == b)
  {
    if a != {} {
      var x :| x in a;
      FewerKeys(a - {x}, b - {x});
      assert a == (a - {x}) + {x} && b == (b - {x}) + {x};
    }
  }
}
