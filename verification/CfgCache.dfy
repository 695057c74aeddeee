/** The cached scan filter as the firmware keeps it: an array that is freed and rebuilt, and
    searched for every advertisement. */
module CfgCache {
  import opened AdvCache
  import opened FilterCache

  class CfgFilter {
    var flagUseNtp: bool
    var allowListed: bool
    var length: nat
    var macs: array?<Mac>

    ghost predicate Valid()
      reads this
    {
      length == if macs == null then 0 else macs.Length
    }

    function View(): Filter
      requires Valid()
      reads this, macs
    {
      Filter(allowListed, if macs == null then [] else macs[..])
    }

    constructor ()
      ensures Valid() && View() == Filter(false, [])
    {
      flagUseNtp, allowListed, length, macs := false, false, 0, null;
    }

    /** Whether an advertisement is dropped: the sensor is missing in the allow list in force,
        or is in the deny list in force. */
    method IsFilteredOut(mac: Mac) returns (out: bool)
      requires Valid()
      ensures out <==> length > 0 && if allowListed then mac !in macs[..] else mac in macs[..]
      ensures out == !Passes(View(), mac)
    {
      if length == 0 {
        return false;
      }
      out := false;
      if allowListed {
        var i := 0;
        while i < length
          invariant i <= length && mac !in macs[..i]
        {
          if macs[i] == mac {
            assert macs[i] in macs[..];
            return false;
          }
          i := i + 1;
        }
        assert macs[..length] == macs[..];
        out := true;
      } else {
        var i := 0;
        while i < length
          invariant i <= length && mac !in macs[..i]
        {
          if macs[i] == mac {
            assert macs[i] in macs[..];
            return true;
          }
          i := i + 1;
        }
        assert macs[..length] == macs[..];
      }
    }

    /** Lets everything pass. */
    method Drop()
      requires Valid()
      modifies this
      ensures Valid() && macs == null && View() == Filter(old(allowListed), []) && flagUseNtp == old(flagUseNtp)
    {
      if macs != null {
        length, macs := 0, null;
      }
    }

    /** Takes over the filter of a configuration; without memory nothing is filtered. */
    method Rebuild(allow: bool, list: seq<Mac>, allocOk: bool) returns (ok: bool)
      requires Valid() && macs == null
      modifies this
      ensures Valid() && ok == (list == [] || allocOk)
      ensures View() == Filter(allow, if ok then list else [])
    {
      allowListed := allow;
      if |list| != 0 {
        if !allocOk {
          length := 0;
          return false;
        }
        macs := new Mac[|list|](_ => [0, 0, 0, 0, 0, 0]);
        length := |list|;
      }
      if macs != null {
        var i := 0;
        while i < |list|
          invariant macs != null && fresh(macs) && macs.Length == |list| == length && allowListed == allow
          invariant i <= |list| && macs[..i] == list[..i]
          modifies macs
        {
          macs[i] := list[i];
          i := i + 1;
        }
        assert macs[..] == list;
      } else {
        length := 0;
      }
      ok := true;
    }

    /** What a change of the configuration does to the filter, under its lock. */
    method OnCfgChange(useNtp: bool, allow: bool, list: seq<Mac>, allocOk: bool) returns (ok: bool)
      requires Valid()
      modifies this
      ensures Valid() && flagUseNtp == useNtp && ok == (list == [] || allocOk)
      ensures View() == Filter(allow, if ok then list else [])
    {
      Drop();
      ok := Rebuild(allow, list, allocOk);
      flagUseNtp := useNtp;
    }
  }
}
