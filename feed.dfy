/** Feed entries as feedparser yields them, and the fingerprint of an entry. */
module Feed {

  /** The three fields of a feedparser entry that the bot reads. */
  datatype Entry = Entry(title: string, link: string, description: string)

  /**
   * generate_post_hash (main.py:219-222): a digest of link + title. `digest` stands for
   * sha256(...).hexdigest() and is left arbitrary, so nothing assumes it is injective.
   */
  function PostHash(digest: string -> string, e: Entry): string {
    digest(e.link + e.title)
  }

  /** Entries whose link and title concatenate to the same text share a hash, whatever the digest. */
  lemma {:induction false} ConcatenationCollides(digest: string -> string, a: Entry, b: Entry)
    requires a.link + a.title == b.link + b.title
    ensures PostHash(digest, a) == PostHash(digest, b)
  {
  }

  /** Two different entries that a pass therefore treats as one: link "a" with title "b", and link "ab" with no title. */
  lemma DistinctEntriesCollide(digest: string -> string)
    ensures Entry("b", "a", "") != Entry("", "ab", "")
    ensures PostHash(digest, Entry("b", "a", "")) == PostHash(digest, Entry("", "ab", ""))
  {
    ConcatenationCollides(digest, Entry("b", "a", ""), Entry("", "ab", ""));
  }

  /** The text parse_rss_feed hands to the transform step (main.py:276). */
  function Content(e: Entry): (c: string)
    ensures |c| >= |e.title| + 4 && c[..|e.title|] == e.title
  {
    e.title + "\n\n" + e.description + "\n\n" + e.link
  }
}
