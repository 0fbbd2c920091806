/** Participant names. A participant is a connector, written either bare (`connector-A`) or
    qualified by the kernel that hosts it (`kernel-1:connector-A`). */
module Names {

  /** strings.Contains(s, ":") */
  predicate HasColon(s: string) {
    ':' in s
  }

  /** strings.LastIndex(s, ":") */
  function LastColon(s: string): (i: int)
    ensures -1 <= i < |s|
    ensures 0 <= i ==> s[i] == ':' && !HasColon(s[i + 1..])
    ensures i < 0 ==> !HasColon(s)
  {
    if s == "" then -1
    else if s[|s| - 1] == ':' then |s| - 1
    else
      var i := LastColon(s[..|s| - 1]);
      assert s == s[..|s| - 1] + [s[|s| - 1]];
      assert 0 <= i ==> s[i + 1..] == s[..|s| - 1][i + 1..] + [s[|s| - 1]];
      i
  }

  /** strings.Index(s, ":") */
  function FirstColon(s: string): (i: int)
    ensures -1 <= i < |s|
    ensures 0 <= i ==> s[i] == ':' && !HasColon(s[..i])
    ensures i < 0 <==> !HasColon(s)
  {
    if s == "" then -1
    else if s[0] == ':' then 0
    else
      var i := FirstColon(s[1..]);
      assert s == [s[0]] + s[1..];
      assert 0 <= i ==> s[..i + 1] == [s[0]] + s[1..][..i];
      if i < 0 then -1 else i + 1
  }

  /** The connector name with any kernel prefix removed (everything after the last colon). */
  function Bare(s: string): (b: string)
    ensures !HasColon(b)
    ensures !HasColon(s) ==> b == s
  {
    s[LastColon(s) + 1..]
  }

  /** parts[0] of strings.SplitN(s, ":", 2) */
  function KernelOf(s: string): (k: string)
    requires HasColon(s)
    ensures !HasColon(k)
  {
    s[..FirstColon(s)]
  }

  /** parts[1] of strings.SplitN(s, ":", 2) */
  function ConnectorOf(s: string): string
    requires HasColon(s)
  {
    s[FirstColon(s) + 1..]
  }

  function Qualify(kernel: string, connector: string): (s: string)
    ensures HasColon(s)
  {
    assert (kernel + ":" + connector)[|kernel|] == ':';
    kernel + ":" + connector
  }

  /** strings.HasPrefix(s, p) */
  predicate HasPrefix(s: string, p: string) {
    p <= s
  }

  /** strings.HasSuffix(s, q) */
  predicate HasSuffix(s: string, q: string) {
    |q| <= |s| && s[|s| - |q|..] == q
  }

  /** Qualifying a name and taking it apart again are inverse. */
  lemma QualifySplits(kernel: string, connector: string)
    requires !HasColon(kernel)
    ensures KernelOf(Qualify(kernel, connector)) == kernel
    ensures ConnectorOf(Qualify(kernel, connector)) == connector
  {
    var s := Qualify(kernel, connector);
    assert s[..|kernel|] == kernel && s[|kernel|] == ':' && s[|kernel| + 1..] == connector;
    assert forall j | 0 <= j < |kernel| :: s[j] in kernel;
    assert FirstColon(s) == |kernel|;
  }

  lemma SplitQualifies(s: string)
    requires HasColon(s)
    ensures Qualify(KernelOf(s), ConnectorOf(s)) == s
  {
    assert s == s[..FirstColon(s)] + [':'] + s[FirstColon(s) + 1..];
  }

  lemma BareOfQualified(kernel: string, connector: string)
    requires !HasColon(connector)
    ensures Bare(Qualify(kernel, connector)) == connector
  {
    var s := Qualify(kernel, connector);
    assert s[|kernel|] == ':' && s[|kernel| + 1..] == connector;
    assert forall j | |kernel| < j < |s| :: s[j] in connector;
    assert forall j | 0 <= j <= |kernel| :: s[|kernel|] in s[j..];
    assert LastColon(s) == |kernel|;
  }

  /** The prefix test of the ACCEPTED notice picks out exactly the names hosted by that kernel. */
  lemma PrefixOfQualified(kernel: string, connector: string, other: string)
    requires !HasColon(kernel) && !HasColon(other)
    ensures HasPrefix(Qualify(kernel, connector), other + ":") <==> kernel == other
  {
    var s := Qualify(kernel, connector);
    if HasPrefix(s, other + ":") {
      var p := other + ":";
      assert s[..|p|] == p;
      assert s[|other|] == p[|other|] == ':';
      QualifySplits(kernel, connector);
      QualifySplits(other, s[|p|..]);
      assert s == Qualify(other, s[|p|..]);
    }
  }

  /** The suffix test of the auto-approval picks out exactly the names of that connector. */
  lemma SuffixOfQualified(kernel: string, connector: string, other: string)
    requires !HasColon(connector) && !HasColon(other)
    ensures HasSuffix(Qualify(kernel, connector), ":" + other) <==> connector == other
  {
    var s := Qualify(kernel, connector);
    assert s[|kernel|..] == ":" + connector;
    if HasSuffix(s, ":" + other) {
      var n := |s| - |other| - 1;
      assert s[n..] == ":" + other;
      assert s[n] == (":" + other)[0];
      assert s == Qualify(s[..n], other);
      BareOfQualified(kernel, connector);
      BareOfQualified(s[..n], other);
    }
  }

  /** SetRemoteReceiver for every qualified name of a list: the connector is mapped to its kernel. */
  function AddRemote(remote: map<string, string>, ids: seq<string>): map<string, string> {
    if ids == [] then remote
    else
      var id := ids[|ids| - 1];
      var m := AddRemote(remote, ids[..|ids| - 1]);
      if HasColon(id) then m[ConnectorOf(id) := KernelOf(id)] else m
  }

  /** The same, keeping only connectors hosted on another kernel than `here`. */
  function AddForeign(remote: map<string, string>, here: string, ids: seq<string>): map<string, string> {
    if ids == [] then remote
    else
      var id := ids[|ids| - 1];
      var m := AddForeign(remote, here, ids[..|ids| - 1]);
      if HasColon(id) && KernelOf(id) != here then m[ConnectorOf(id) := KernelOf(id)] else m
  }

  /** Some listed name that is hosted elsewhere belongs to connector `c` of kernel `k`. */
  predicate ForeignEntry(here: string, ids: seq<string>, c: string, k: string) {
    exists i :: 0 <= i < |ids| && HasColon(ids[i]) && KernelOf(ids[i]) != here
                && ConnectorOf(ids[i]) == c && KernelOf(ids[i]) == k
  }

  /** After learning a list, a connector is known at a kernel exactly when the list has it there or, the
      list not having it at all, it was known there before - provided the list has no connector at two
      kernels. */
  lemma {:induction false} ForeignLearned(remote: map<string, string>, here: string, ids: seq<string>,
                                          c: string, k: string)
    requires forall j, l | ForeignEntry(here, ids, c, j) && ForeignEntry(here, ids, c, l) :: j == l
    ensures var m := AddForeign(remote, here, ids);
      (c in m && m[c] == k) <==>
        ForeignEntry(here, ids, c, k) || ((forall j :: !ForeignEntry(here, ids, c, j)) && c in remote && remote[c] == k)
  {
    if ids != [] {
      var n := |ids| - 1;
      var front, id := ids[..n], ids[n];
      LastEntry(here, ids, c);
      ForeignLearned(remote, here, front, c, k);
      hide ForeignEntry;
      if HasColon(id) && KernelOf(id) != here && ConnectorOf(id) == c {
        assert ForeignEntry(here, ids, c, KernelOf(id));
      } else {
        assert forall j :: ForeignEntry(here, ids, c, j) <==> ForeignEntry(here, front, c, j);
      }
    }
  }

  lemma LastEntry(here: string, ids: seq<string>, c: string)
    requires ids != []
    ensures var n := |ids| - 1;
      forall j :: ForeignEntry(here, ids, c, j) <==>
        ForeignEntry(here, ids[..n], c, j)
        || (HasColon(ids[n]) && KernelOf(ids[n]) != here && ConnectorOf(ids[n]) == c && KernelOf(ids[n]) == j)
  {
    var n := |ids| - 1;
    assert forall i | 0 <= i < n :: ids[..n][i] == ids[i];
  }

  /** The `i`th name of the list is `k:c`, and no later one is a name of connector `c`. */
  ghost predicate LastOf(ids: seq<string>, c: string, k: string, i: nat) {
    && i < |ids| && !HasColon(k) && ids[i] == k + ":" + c
    && forall j | i < j < |ids| :: !EntryOf(ids[j], c)
  }

  /** The name is `k:c` for some kernel `k`. */
  ghost predicate EntryOf(id: string, c: string) {
    exists k :: !HasColon(k) && id == Qualify(k, c)
  }

  lemma EntryOfExactly(id: string, c: string)
    ensures EntryOf(id, c) <==> HasColon(id) && ConnectorOf(id) == c
  {
    hide Qualify, KernelOf, ConnectorOf, HasColon;
    if HasColon(id) {
      SplitQualifies(id);
    }
    if EntryOf(id, c) {
      var k :| !HasColon(k) && id == Qualify(k, c);
      QualifySplits(k, c);
    }
  }

  /** After a whole list is learned, wherever its names are hosted, a connector is known at the kernel of
      the last name the list has for it; a connector the list does not have is known as before. */
  lemma {:induction false} RemoteLearned(remote: map<string, string>, ids: seq<string>, c: string)
    ensures var m := AddRemote(remote, ids);
      && (forall k, i | LastOf(ids, c, k, i) :: c in m && m[c] == k)
      && ((forall i | 0 <= i < |ids| :: !EntryOf(ids[i], c)) ==>
            (c in m <==> c in remote) && (c in m ==> m[c] == remote[c]))
  {
    if ids != [] {
      var n := |ids| - 1;
      EntryOfExactly(ids[n], c);
      RemoteLearned(remote, ids[..n], c);
      hide EntryOf;
      forall k, i | LastOf(ids, c, k, i)
        ensures c in AddRemote(remote, ids) && AddRemote(remote, ids)[c] == k
      {
        if i == n {
          QualifySplits(k, c);
          assert ids[n] == Qualify(k, c);
        } else {
          assert LastOf(ids[..n], c, k, i);
        }
      }
      assert forall i | 0 <= i < n :: ids[..n][i] == ids[i];
    }
  }
}
