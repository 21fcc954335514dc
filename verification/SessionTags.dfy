/**
 The tags of sessions, kept both by session and by tag.
 */
module SessionTags {
  import opened Wrappers

  type Tags = map<nat, map<string, string>>

  type ByTag = map<string, map<string, set<nat>>>

  ghost predicate HasTag(tags: Tags, i: nat, key: string, value: string) {
    i in tags && key in tags[i] && tags[i][key] == value
  }

  function SessionsWith(b: ByTag, key: string, value: string): set<nat> {
    if key in b && value in b[key] then b[key][value] else {}
  }

  /** The index by tag holds exactly the tags of each session, */
  ghost predicate Reflects(b: ByTag, tags: Tags) {
    forall key, value, i :: i in SessionsWith(b, key, value) <==> HasTag(tags, i, key, value)
  }

  /** and nothing empty. */
  ghost predicate Trimmed(b: ByTag) {
    forall key :: key in b ==> b[key] != map[] && forall value :: value in b[key] ==> b[key][value] != {}
  }

  /** `remove_with_tag`. */
  function Untagged(b: ByTag, i: nat, key: string, value: string): Option<ByTag> {
    if i !in SessionsWith(b, key, value) then None
    else
      var rest := b[key][value] - {i};
      var values := if rest == {} then b[key] - {value} else b[key][value := rest];
      Some(if values == map[] then b - {key} else b[key := values])
  }

  function Tagged(b: ByTag, i: nat, key: string, value: string): ByTag {
    b[key := (if key in b then b[key] else map[])[value := SessionsWith(b, key, value) + {i}]]
  }

  function TagsOf(tags: Tags, i: nat): map<string, string> { if i in tags then tags[i] else map[] }

  lemma UntaggedSessions(b: ByTag, i: nat, key: string, value: string)
    requires i in SessionsWith(b, key, value)
    ensures var u := Untagged(b, i, key, value).value;
            forall k, v, j :: j in SessionsWith(u, k, v) <==>
              j in SessionsWith(b, k, v) && !(j == i && k == key && v == value)
  {
    var u := Untagged(b, i, key, value).value;
    var rest := b[key][value] - {i};
    var values := if rest == {} then b[key] - {value} else b[key][value := rest];
    assert key in u ==> u[key] == values;
    assert value in values <==> rest != {};
    assert key !in u ==> forall v :: v in b[key] && v != value ==> v in values;
    forall k, v, j
      ensures j in SessionsWith(u, k, v) <==> j in SessionsWith(b, k, v) && !(j == i && k == key && v == value)
    {
      if k == key && v == value {
        assert SessionsWith(u, k, v) == rest;
      }
    }
  }

  lemma UntaggedTrimmed(b: ByTag, i: nat, key: string, value: string)
    requires Trimmed(b) && i in SessionsWith(b, key, value)
    ensures Trimmed(Untagged(b, i, key, value).value)
  {
  }

  lemma TaggedSessions(b: ByTag, i: nat, key: string, value: string)
    ensures var t := Tagged(b, i, key, value);
            forall k, v, j :: j in SessionsWith(t, k, v) <==>
              j in SessionsWith(b, k, v) || (j == i && k == key && v == value)
  {
    var t := Tagged(b, i, key, value);
    forall k, v, j
      ensures j in SessionsWith(t, k, v) <==> j in SessionsWith(b, k, v) || (j == i && k == key && v == value)
    {
      if k == key {
        assert v == value ==> SessionsWith(t, k, v) == SessionsWith(b, key, value) + {i};
      }
    }
  }

  lemma TaggedTrimmed(b: ByTag, i: nat, key: string, value: string)
    requires Trimmed(b)
    ensures Trimmed(Tagged(b, i, key, value))
  {
    var t := Tagged(b, i, key, value);
    assert value in t[key] && i in t[key][value];
  }

  /** Taking a tag out of the index matches taking it from its session, */
  lemma UntaggedReflects(b: ByTag, tags: Tags, i: nat, key: string, value: string)
    requires Reflects(b, tags) && Trimmed(b) && HasTag(tags, i, key, value)
    ensures i in SessionsWith(b, key, value)
    ensures Reflects(Untagged(b, i, key, value).value, tags[i := tags[i] - {key}])
    ensures Trimmed(Untagged(b, i, key, value).value)
  {
    UntaggedSessions(b, i, key, value);
    UntaggedTrimmed(b, i, key, value);
    var rest := tags[i := tags[i] - {key}];
    forall k, v, j
      ensures HasTag(rest, j, k, v) <==> HasTag(tags, j, k, v) && !(j == i && k == key && v == value)
    {
    }
  }

  /** and putting a tag for a free key into the index matches giving it to the session. */
  lemma TaggedReflects(b: ByTag, tags: Tags, i: nat, key: string, value: string)
    requires Reflects(b, tags) && Trimmed(b) && key !in TagsOf(tags, i)
    ensures i !in SessionsWith(b, key, value)
    ensures Reflects(Tagged(b, i, key, value), tags[i := TagsOf(tags, i)[key := value]])
    ensures Trimmed(Tagged(b, i, key, value))
  {
    TaggedSessions(b, i, key, value);
    TaggedTrimmed(b, i, key, value);
    var more := tags[i := TagsOf(tags, i)[key := value]];
    forall k, v, j
      ensures HasTag(more, j, k, v) <==> HasTag(tags, j, k, v) || (j == i && k == key && v == value)
    {
    }
  }

  /** The index after `add`, which first takes out a different earlier value. */
  function Indexed(b: ByTag, mine: map<string, string>, i: nat, key: string, value: string): ByTag
    requires key in mine ==> i in SessionsWith(b, key, mine[key])
  {
    if key !in mine then Tagged(b, i, key, value)
    else if mine[key] == value then b
    else Tagged(Untagged(b, i, key, mine[key]).value, i, key, value)
  }

  /** A session gets the latest value for a key in both maps; what is taken out is there, and what is put in is not. */
  lemma IndexedReflects(b: ByTag, tags: Tags, i: nat, key: string, value: string)
    requires Reflects(b, tags) && Trimmed(b)
    ensures var mine := TagsOf(tags, i);
            && (key in mine ==> i in SessionsWith(b, key, mine[key]))
            && (key in mine && mine[key] != value ==>
                  i !in SessionsWith(Untagged(b, i, key, mine[key]).value, key, value))
            && (key !in mine ==> i !in SessionsWith(b, key, value))
            && Reflects(Indexed(b, mine, i, key, value), tags[i := mine[key := value]])
            && Trimmed(Indexed(b, mine, i, key, value))
  {
    var mine := TagsOf(tags, i);
    if key !in mine {
      TaggedReflects(b, tags, i, key, value);
    } else {
      UntaggedReflects(b, tags, i, key, mine[key]);
      if mine[key] == value {
        assert mine[key := value] == mine && tags[i := mine] == tags;
      } else {
        var rest := tags[i := mine - {key}];
        TaggedReflects(Untagged(b, i, key, mine[key]).value, rest, i, key, value);
        assert (mine - {key})[key := value] == mine[key := value];
        assert rest[i := mine[key := value]] == tags[i := mine[key := value]];
      }
    }
  }

  /** The tags of a session for some of its keys only. */
  function Restricted(mine: map<string, string>, keys: set<string>): map<string, string> {
    map k | k in mine && k in keys :: mine[k]
  }

  lemma OneKeyLess(b: ByTag, tags: Tags, i: nat, mine: map<string, string>, keys: set<string>, key: string)
    requires key in keys && keys <= mine.Keys && Reflects(b, tags[i := Restricted(mine, keys)]) && Trimmed(b)
    ensures i in SessionsWith(b, key, mine[key])
    ensures Reflects(Untagged(b, i, key, mine[key]).value, tags[i := Restricted(mine, keys - {key})])
    ensures Trimmed(Untagged(b, i, key, mine[key]).value)
  {
    var now := tags[i := Restricted(mine, keys)];
    UntaggedReflects(b, now, i, key, mine[key]);
    assert now[i] - {key} == Restricted(mine, keys - {key});
    assert now[i := now[i] - {key}] == tags[i := Restricted(mine, keys - {key})];
  }

  lemma NoKeysLeft(b: ByTag, tags: Tags, i: nat, mine: map<string, string>)
    requires i !in tags && Reflects(b, tags[i := Restricted(mine, {})])
    ensures Reflects(b, tags)
  {
    var now := tags[i := Restricted(mine, {})];
    forall k, v, j ensures HasTag(now, j, k, v) <==> HasTag(tags, j, k, v) {}
  }

  class SessionTagIndex {
    var byTag: ByTag
    var tags: Tags

    ghost predicate Valid()
      reads this
    {
      Reflects(byTag, tags) && Trimmed(byTag)
    }

    constructor ()
      ensures Valid() && tags == map[]
    {
      byTag, tags := map[], map[];
    }

    method RemoveWithTag(i: nat, key: string, value: string) returns (found: bool)
      modifies this`byTag
      ensures found <==> i in SessionsWith(old(byTag), key, value)
      ensures byTag == if found then Untagged(old(byTag), i, key, value).value else old(byTag)
    {
      if key !in byTag || value !in byTag[key] {
        return false;
      }
      if i !in byTag[key][value] {
        return false;
      }
      var sessions := byTag[key][value] - {i};
      var values := byTag[key][value := sessions];
      if sessions == {} {
        values := values - {value};
        assert values == byTag[key] - {value};
      }
      byTag := if values == map[] then byTag - {key} else byTag[key := values];
      return true;
    }

    /** A session has one value for a key, the latest; neither assertion of the original can fail. */
    method Add(i: nat, key: string, value: string)
      requires Valid()
      modifies this
      ensures Valid() && tags == old(tags)[i := TagsOf(old(tags), i)[key := value]]
    {
      var before := TagsOf(tags, i);
      IndexedReflects(byTag, tags, i, key, value);
      tags := tags[i := before[key := value]];
      if key in before {
        if before[key] == value {
          return;
        }
        var found := RemoveWithTag(i, key, before[key]);
        assert found;
      }
      assert i !in SessionsWith(byTag, key, value);
      byTag := Tagged(byTag, i, key, value);
    }

    /** The tags go with their session, and the assertion on each single removal holds. */
    method Remove(i: nat) returns (found: bool)
      requires Valid()
      modifies this
      ensures Valid() && tags == old(tags) - {i} && found == (i in old(tags))
    {
      if i !in tags {
        return false;
      }
      var mine := tags[i];
      var keys := mine.Keys;
      assert Restricted(mine, keys) == mine && (tags - {i})[i := mine] == tags;
      tags := tags - {i};
      while keys != {}
        invariant keys <= mine.Keys && Trimmed(byTag) && tags == old(tags) - {i}
        invariant Reflects(byTag, tags[i := Restricted(mine, keys)])
        decreases |keys|
      {
        var key :| key in keys;
        OneKeyLess(byTag, tags, i, mine, keys, key);
        var ok := RemoveWithTag(i, key, mine[key]);
        assert ok;
        keys := keys - {key};
      }
      NoKeysLeft(byTag, tags, i, mine);
      return true;
    }

    /** The count is the number of sessions that have the tag. */
    method CountWithTag(key: string, value: string) returns (n: nat)
      requires Valid()
      ensures n == |set i | i in tags && HasTag(tags, i, key, value)|
    {
      var s := SessionsWith(byTag, key, value);
      assert s == set i | i in tags && HasTag(tags, i, key, value);
      return |s|;
    }
  }
}
