/** The labels of the mixed strategy do not depend on the order in which Go ranges over the profiles. */
module MixedOrder {
  import opened Outcomes
  import opened Labels
  import opened Managers
  import opened Configuration
  import opened Orders
  import opened Grouping
  import opened ResourceLabels
  import opened MigProfiles

  /** The attributes a MIG device reports. */
  const ATTRIBUTES: set<string> := {
    "memory", "multiprocessors", "slices.gi", "slices.ci", "engines.copy", "engines.decoder", "engines.encoder",
    "engines.jpeg", "engines.ofa"}

  predicate IsSuffix(s: string) {
    s in ATTRIBUTES || s == PRODUCT || s == COUNT || s == REPLICAS
  }

  /** What follows the dot of a dotted suffix. */
  lemma {:induction false} DotsInSuffixes(s: string, i: nat)
    requires IsSuffix(s) && i < |s| && s[i] == '.'
    ensures s[i + 1..] in {"gi", "ci", "copy", "decoder", "encoder", "jpeg", "ofa"}
  {
  }

  lemma NotSuffixes(s: string)
    requires s in {"gi", "ci", "copy", "decoder", "encoder", "jpeg", "ofa"}
    ensures !IsSuffix(s)
  {
  }

  /** No suffix ends in a dot and another suffix, so a key has only one reading. */
  lemma UniqueDecoding(a: string, s: string, b: string, t: string)
    requires IsSuffix(s) && IsSuffix(t) && a + "." + s == b + "." + t
    ensures a == b && s == t
  {
    var key := a + "." + s;
    if |s| < |t| {
      var i := |t| - |s| - 1;
      assert t == key[|b| + 1..] && s == key[|a| + 1..];
      assert t[i] == key[|a|] == '.' && t[i + 1..] == s;
      DotsInSuffixes(t, i);
      NotSuffixes(s);
    } else if |t| < |s| {
      var i := |s| - |t| - 1;
      assert t == key[|b| + 1..] && s == key[|a| + 1..];
      assert s[i] == key[|b|] == '.' && s[i + 1..] == t;
      DotsInSuffixes(s, i);
      NotSuffixes(t);
    } else {
      assert a == key[..|a|] && b == key[..|b|];
      assert s == key[|a| + 1..] && t == key[|b| + 1..];
    }
  }

  /** The device reports no attribute but the known ones. */
  predicate StandardAttributes(d: Device) {
    d.attributes.Ok? ==> d.attributes.value.Keys <= ATTRIBUTES
  }

  lemma ProfileKeys(resource: MigResource, sharing: seq<ReplicatedResource>, key: string) returns (suffix: string)
    requires StandardAttributes(resource.device) && key in ProfileLabels(resource, sharing)
    ensures IsSuffix(suffix) && key == resource.name + "." + suffix
  {
    var values := MigValues(resource.name, Some(sharing), resource.device, resource.count);
    suffix :| suffix in values && key == ResourceLabeler(resource.name, Some(sharing)).Key(suffix);
    ValuesAreSuffixes(resource, sharing, suffix);
  }

  lemma ValuesAreSuffixes(resource: MigResource, sharing: seq<ReplicatedResource>, suffix: string)
    requires StandardAttributes(resource.device) && MigAnswers(resource.device)
    requires suffix in MigValues(resource.name, Some(sharing), resource.device, resource.count)
    ensures IsSuffix(suffix)
  {
  }

  /** Different profiles never write the same label. */
  lemma ProfilesAreDisjoint(migs: seq<Device>, sharing: seq<ReplicatedResource>, n: string, p: string, key: string)
    requires forall i | 0 <= i < |migs| :: StandardAttributes(migs[i])
    requires var g := Group(migs, true);
      n in g && p in g && key in ProfileLabels(g[n], sharing) && key in ProfileLabels(g[p], sharing)
    ensures n == p
  {
    var g := Group(migs, true);
    GroupHolds(migs, true);
    GroupKeepsFirst(migs, true, n);
    GroupKeepsFirst(migs, true, p);
    var s := ProfileKeys(g[n], sharing, key);
    var t := ProfileKeys(g[p], sharing, key);
    UniqueDecoding(MIG_PREFIX + n, s, MIG_PREFIX + p, t);
    assert (MIG_PREFIX + n)[|MIG_PREFIX|..] == n && (MIG_PREFIX + p)[|MIG_PREFIX|..] == p;
  }

  lemma OthersLack(migs: seq<Device>, sharing: seq<ReplicatedResource>, order: seq<string>, i: nat, j: nat, key: string)
    requires forall k | 0 <= k < |migs| :: StandardAttributes(migs[k])
    requires Enumerates(order, Group(migs, true).Keys) && i < |order| && j < |order| && i != j
    requires key in ProfileLabels(Group(migs, true)[order[i]], sharing)
    ensures key !in ProfileLabels(Group(migs, true)[order[j]], sharing)
  {
    if key in ProfileLabels(Group(migs, true)[order[j]], sharing) {
      ProfilesAreDisjoint(migs, sharing, order[i], order[j], key);
    }
  }

  /** Each profile keeps every one of its labels, whatever the order. */
  lemma {:induction false} ProfileKeepsLabels(migs: seq<Device>, sharing: seq<ReplicatedResource>, order: seq<string>,
                                              n: string, key: string)
    requires forall i | 0 <= i < |migs| :: StandardAttributes(migs[i])
    requires Enumerates(order, Group(migs, true).Keys)
    requires n in Group(migs, true) && key in ProfileLabels(Group(migs, true)[n], sharing)
    ensures var labels := Overlay(ProfilesIn(Group(migs, true), sharing, order));
      key in labels && labels[key] == ProfileLabels(Group(migs, true)[n], sharing)[key]
  {
    assert n in Group(migs, true).Keys;
    var i :| 0 <= i < |order| && order[i] == n;
    forall j | 0 <= j < |order| && j != i ensures key !in ProfilesIn(Group(migs, true), sharing, order)[j] {
      OthersLack(migs, sharing, order, i, j, key);
    }
    OverlayOfDisjoint(ProfilesIn(Group(migs, true), sharing, order), i, key);
  }

  lemma KeysFromProfiles(migs: seq<Device>, sharing: seq<ReplicatedResource>, order: seq<string>, key: string) returns (n: string)
    requires Enumerates(order, Group(migs, true).Keys)
    requires key in Overlay(ProfilesIn(Group(migs, true), sharing, order))
    ensures n in Group(migs, true) && key in ProfileLabels(Group(migs, true)[n], sharing)
  {
    OverlayKeys(ProfilesIn(Group(migs, true), sharing, order));
    var i :| 0 <= i < |order| && key in ProfilesIn(Group(migs, true), sharing, order)[i];
    n := order[i];
  }

  lemma LabelInAnyOrder(migs: seq<Device>, sharing: seq<ReplicatedResource>, a: Labels, b: Labels, key: string)
    requires forall i | 0 <= i < |migs| :: StandardAttributes(migs[i])
    requires MergedInSomeOrder(migs, sharing, a) && MergedInSomeOrder(migs, sharing, b) && key in a
    ensures key in b && a[key] == b[key]
  {
    var o :| Enumerates(o, Group(migs, true).Keys) && a == Overlay(ProfilesIn(Group(migs, true), sharing, o));
    var p :| Enumerates(p, Group(migs, true).Keys) && b == Overlay(ProfilesIn(Group(migs, true), sharing, p));
    var n := KeysFromProfiles(migs, sharing, o, key);
    ProfileKeepsLabels(migs, sharing, o, n, key);
    ProfileKeepsLabels(migs, sharing, p, n, key);
  }

  /** Mixed-strategy labels do not depend on map iteration order. */
  lemma {:induction false} MixedLabelsAreDetermined(migs: seq<Device>, sharing: seq<ReplicatedResource>, a: Labels, b: Labels)
    requires forall i | 0 <= i < |migs| :: StandardAttributes(migs[i])
    requires MergedInSomeOrder(migs, sharing, a) && MergedInSomeOrder(migs, sharing, b)
    ensures a == b
  {
    forall key | key in a ensures key in b && b[key] == a[key] {
      LabelInAnyOrder(migs, sharing, a, b, key);
    }
    forall key | key in b ensures key in a {
      LabelInAnyOrder(migs, sharing, b, a, key);
    }
  }
}
