/**
 * The Blog page: one card per stored blog post, with a badge coloured by
 * the topic its title suggests, fallbacks for a missing image or
 * description, and a "View All Posts" button for long lists.
 */
module BlogPage {
  import opened Wrappers
  import opened Strings
  import opened Seqs
  import opened Json

  const MlBadge: string := "bg-blue-100 text-blue-700 dark:bg-blue-900 dark:text-blue-300"
  const CloudBadge: string := "bg-purple-100 text-purple-700 dark:bg-purple-900 dark:text-purple-300"
  const DataBadge: string := "bg-emerald-100 text-emerald-700 dark:bg-emerald-900 dark:text-emerald-300"
  const PlainBadge: string := "bg-gray-100 text-gray-700 dark:bg-gray-800 dark:text-gray-300"

  const DefaultImage: string :=
    "https://images.unsplash.com/photo-1504868584819-f8e8b4b6d7e3?ixlib=rb-4.0.3&auto=format&fit=crop&w=800&h=400"
  const DefaultDescription: string := "Click to read more about this blog post."

  predicate MlTitle(t: string) {
    Contains(t, "machine learning") || Contains(t, "ml") || Contains(t, "ai")
  }

  predicate CloudTitle(t: string) {
    Contains(t, "cloud") || Contains(t, "aws") || Contains(t, "devops")
  }

  predicate DataTitle(t: string) {
    Contains(t, "data") || Contains(t, "analysis")
  }

  /**
   * `getCategoryColor`: the lower-cased title is tested for machine
   * learning words, then cloud words, then data words; the first group that
   * matches picks the badge, and a title matching none gets the grey one.
   */
  function CategoryColor(title: string): (badge: string)
    ensures badge in {MlBadge, CloudBadge, DataBadge, PlainBadge}
    ensures badge == MlBadge <==> MlTitle(ToLower(title))
    ensures badge == CloudBadge <==> !MlTitle(ToLower(title)) && CloudTitle(ToLower(title))
    ensures badge == DataBadge <==>
      !MlTitle(ToLower(title)) && !CloudTitle(ToLower(title)) && DataTitle(ToLower(title))
  {
    var t := ToLower(title);
    if MlTitle(t) then MlBadge
    else if CloudTitle(t) then CloudBadge
    else if DataTitle(t) then DataBadge
    else PlainBadge
  }

  /** "ai" is matched inside words, so a title about containers gets the machine-learning badge. */
  lemma ContainersLookLikeAi()
    ensures CategoryColor("Containers") == MlBadge
  {
    var t := ToLower("Containers");
    assert t[4] == 'a' && t[5] == 'i';
    assert t[4..4 + |"ai"|] == "ai";
    ContainsAt(t, "ai", 4);
  }

  /** What a card shows for a post. */
  datatype Card = Card(image: Value, title: string, badge: string, description: Value, link: Value)

  /** A text field of a post, or "" when it holds no text. */
  function TextOf(post: Record, k: string): string {
    if k in post && post[k].Str? then post[k].s else ""
  }

  /** `value || fallback` for a field of a post. */
  function OrDefault(post: Record, k: string, fallback: string): (v: Value)
    ensures FieldTruthy(post, k) ==> v == post[k]
    ensures !FieldTruthy(post, k) ==> v == Str(fallback)
  {
    if FieldTruthy(post, k) then post[k] else Str(fallback)
  }

  function CardOf(post: Record): (c: Card)
    ensures c.title == TextOf(post, "title") && c.badge == CategoryColor(c.title)
    ensures Truthy(c.image) && Truthy(c.description)
    ensures c.link == (if "url" in post then post["url"] else Null)
  {
    var title := TextOf(post, "title");
    Card(OrDefault(post, "imageUrl", DefaultImage), title, CategoryColor(title),
         OrDefault(post, "description", DefaultDescription),
         if "url" in post then post["url"] else Null)
  }

  /** `(blogs)?.map(...) || []`: one card per post, in the order the server lists them. */
  function Cards(blogs: Option<seq<Record>>): (cards: seq<Card>)
    ensures blogs.None? ==> cards == []
    ensures blogs.Some? ==> (|cards| == |blogs.value| &&
      forall i :: 0 <= i < |cards| ==> cards[i] == CardOf(blogs.value[i]))
  {
    if blogs.None? then [] else Map(blogs.value, CardOf)
  }

  /** `blogs && blogs.length > 6`. */
  predicate ShowViewAll(blogs: Option<seq<Record>>) {
    blogs.Some? && |blogs.value| > 6
  }

  /**
   * The page never trims the list: when the "View All Posts" button shows,
   * every post already has its card.
   */
  lemma ViewAllShowsNothingNew(blogs: Option<seq<Record>>)
    requires ShowViewAll(blogs)
    ensures |Cards(blogs)| == |blogs.value| > 6
  {
  }
}
