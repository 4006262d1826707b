/**
 * The WordPress posts table with its post meta, as the feed and webhook
 * managers use it: `wp_insert_post`, `update_post_meta`, `get_post_meta`
 * and the `postmeta` lookups behind duplicate detection.
 */
module Content {
  import opened Base

  /** A post meta value. Structured values stand for what the source stores JSON-encoded. */
  datatype MetaValue =
    | Text(s: string)
    | Number(n: int)
    | Strings(items: seq<string>)
    | Provenance(processor: string, executionId: string, processedAt: Time, webhookId: nat)

  datatype Post = Post(
    title: string,
    content: string,
    excerpt: string,
    status: string,
    postType: string,
    date: Time,
    meta: map<string, MetaValue>)

  /** The meta keys duplicate detection reads. */
  const GuidKey := "_rss_source_guid"
  const UrlKey := "_rss_source_url"

  /** `get_post_meta($id, $key, true)` on a post: the stored value, or "" when there is none. */
  function MetaOr(p: Post, key: string): MetaValue {
    if key in p.meta then p.meta[key] else Text("")
  }

  function WithMeta(p: Post, key: string, v: MetaValue): Post {
    p.(meta := p.meta[key := v])
  }

  /** Every text value stored under `key` on any post. */
  function MetaValues(posts: map<nat, Post>, key: string): set<string> {
    set id | id in posts && key in posts[id].meta && posts[id].meta[key].Text? :: posts[id].meta[key].s
  }

  /** The GUIDs and URLs duplicate detection can find. */
  datatype SeenKeys = SeenKeys(guids: set<string>, urls: set<string>)

  function Seen(posts: map<nat, Post>): SeenKeys {
    SeenKeys(MetaValues(posts, GuidKey), MetaValues(posts, UrlKey))
  }

  /** The text a post contributes under `key`, if any. */
  function OwnValue(p: Post, key: string): set<string> {
    if key in p.meta && p.meta[key].Text? then {p.meta[key].s} else {}
  }

  /** Adding a post under a fresh id adds exactly that post's value to the values of a key. */
  lemma MetaValuesInsert(posts: map<nat, Post>, id: nat, p: Post, key: string)
    requires id !in posts
    ensures MetaValues(posts[id := p], key) == MetaValues(posts, key) + OwnValue(p, key)
  {
    var after := posts[id := p];
    forall v | v in MetaValues(after, key)
      ensures v in MetaValues(posts, key) + OwnValue(p, key)
    {
      var j :| j in after && key in after[j].meta && after[j].meta[key].Text? && after[j].meta[key].s == v;
      if j != id {
        assert j in posts && posts[j] == after[j];
      }
    }
    forall v | v in MetaValues(posts, key)
      ensures v in MetaValues(after, key)
    {
      var j :| j in posts && key in posts[j].meta && posts[j].meta[key].Text? && posts[j].meta[key].s == v;
      assert after[j] == posts[j];
    }
    if key in p.meta && p.meta[key].Text? {
      assert after[id] == p;
    }
  }

  /** Changing one meta key of a post leaves the values of every other key as they were. */
  lemma MetaValuesOtherKey(posts: map<nat, Post>, id: nat, k: string, v: MetaValue, key: string)
    requires id in posts && k != key
    ensures MetaValues(posts[id := WithMeta(posts[id], k, v)], key) == MetaValues(posts, key)
  {
    var after := posts[id := WithMeta(posts[id], k, v)];
    forall s | s in MetaValues(after, key)
      ensures s in MetaValues(posts, key)
    {
      var j :| j in after && key in after[j].meta && after[j].meta[key].Text? && after[j].meta[key].s == s;
      assert j in posts && posts[j].meta[key] == after[j].meta[key];
    }
    forall s | s in MetaValues(posts, key)
      ensures s in MetaValues(after, key)
    {
      var j :| j in posts && key in posts[j].meta && posts[j].meta[key].Text? && posts[j].meta[key].s == s;
      assert after[j].meta[key] == posts[j].meta[key];
    }
  }

  /** The posts table. Post ids are positive and below `nextId`, so a new post never reuses an id. */
  class ContentStore {
    var posts: map<nat, Post>
    var nextId: nat

    ghost predicate Valid()
      reads this
    {
      nextId > 0 && forall id :: id in posts ==> 0 < id < nextId
    }

    constructor ()
      ensures Valid() && posts == map[]
    {
      posts := map[];
      nextId := 1;
    }

    /** `wp_insert_post`: stores the post under a new id. */
    method Insert(p: Post) returns (id: nat)
      requires Valid()
      modifies this
      ensures Valid()
      ensures id == old(nextId) && id > 0 && id !in old(posts) && nextId == id + 1
      ensures posts == old(posts)[id := p]
    {
      id := nextId;
      posts := posts[id := p];
      nextId := nextId + 1;
    }

    /** `update_post_meta`: sets one meta key of an existing post; nothing happens for an unknown post. */
    method UpdateMeta(id: nat, key: string, v: MetaValue)
      requires Valid()
      modifies this
      ensures Valid() && nextId == old(nextId)
      ensures posts == if id in old(posts) then old(posts)[id := WithMeta(old(posts)[id], key, v)] else old(posts)
    {
      if id in posts {
        posts := posts[id := WithMeta(posts[id], key, v)];
      }
    }

    /** `SELECT post_id FROM postmeta WHERE meta_key = key AND meta_value = value` finds a row. */
    predicate HasMetaValue(key: string, value: string)
      reads this
    {
      exists id :: id in posts && key in posts[id].meta && posts[id].meta[key] == Text(value)
    }

    /** The lookup finds a row exactly when the value is among the values stored under the key. */
    lemma HasMetaValueIsMember(key: string, value: string)
      ensures HasMetaValue(key, value) <==> value in MetaValues(posts, key)
    {
      if value in MetaValues(posts, key) {
        var j :| j in posts && key in posts[j].meta && posts[j].meta[key].Text? && posts[j].meta[key].s == value;
        assert posts[j].meta[key] == Text(value);
      }
    }
  }
}
