/**
 * `search_files` in multiversum/helpers.py: pick the file to use, either
 * the one named explicitly or the first existing one of a list of
 * defaults. Whether a path names an existing regular file is asked of the
 * file system; here that answer is the set `existing` of such paths.
 */
module FileSearch {
  import opened Values

  /** The `file` argument: None, a `str` or `Path`, or a value of any other type. */
  datatype FileArg = NoFile | PathArg(path: string) | OtherArg

  /** The first default that exists, if any. */
  function FirstExisting(defaults: seq<string>, existing: set<string>): (r: Option<string>)
    ensures r.None? <==> forall i :: 0 <= i < |defaults| ==> defaults[i] !in existing
    ensures r.Some? ==> exists i :: (&& 0 <= i < |defaults|
                                     && defaults[i] == r.value
                                     && r.value in existing
                                     && forall k :: 0 <= k < i ==> defaults[k] !in existing)
  {
    if defaults == [] then None
    else if defaults[0] in existing then
      Some(defaults[0])
    else
      var r := FirstExisting(defaults[1..], existing);
      assert forall i :: 1 <= i < |defaults| ==> defaults[i] == defaults[1..][i - 1];
      if r.Some? then
        var i :| (&& 0 <= i < |defaults[1..]|
                  && defaults[1..][i] == r.value
                  && r.value in existing
                  && forall k :: 0 <= k < i ==> defaults[1..][k] !in existing);
        assert defaults[i + 1] == r.value;
        assert forall k :: 0 <= k < i + 1 ==> defaults[k] !in existing;
        r
      else r
  }

  /**
   * `search_files`: an explicit path is returned when it exists and is a
   * FileNotFoundError otherwise; without one the defaults are tried in order.
   */
  method SearchFiles(file: FileArg, defaults: seq<string>, existing: set<string>) returns (r: Result<Option<string>>)
    ensures file.PathArg? && file.path in existing ==> r == Ok(Some(file.path))
    ensures file.PathArg? && file.path !in existing ==> r == Err(FileNotFound(file.path))
    ensures !file.PathArg? ==> r == Ok(FirstExisting(defaults, existing))
  {
    if file.PathArg? {
      if file.path in existing {
        return Ok(Some(file.path));
      } else {
        return Err(FileNotFound(file.path));
      }
    }
    var i := 0;
    while i < |defaults|
      invariant 0 <= i <= |defaults|
      invariant forall k :: 0 <= k < i ==> defaults[k] !in existing
    {
      if defaults[i] in existing {
        ghost var r := FirstExisting(defaults, existing);
        if r.Some? {
          var j :| (&& 0 <= j < |defaults|
                    && defaults[j] == r.value
                    && r.value in existing
                    && forall k :: 0 <= k < j ==> defaults[k] !in existing);
          assert j == i;
        }
        return Ok(Some(defaults[i]));
      }
      i := i + 1;
    }
    return Ok(None);
  }

  /** Defaults that do not exist in front of the list change nothing. */
  lemma {:induction false} MissingDefaultsSkipped(skipped: seq<string>, defaults: seq<string>, existing: set<string>)
    requires forall k :: 0 <= k < |skipped| ==> skipped[k] !in existing
    ensures FirstExisting(skipped + defaults, existing) == FirstExisting(defaults, existing)
  {
    if skipped == [] {
      assert skipped + defaults == defaults;
    } else {
      assert (skipped + defaults)[0] == skipped[0] && (skipped + defaults)[1..] == skipped[1..] + defaults;
      MissingDefaultsSkipped(skipped[1..], defaults, existing);
    }
  }
}
