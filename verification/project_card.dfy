/**
 * A repository card on the Projects page: its picture falls back from the
 * stored image to the repository's showcase picture to a stock photo as
 * loads fail, a badge marks a project-specific picture, and at most three
 * topics are listed.
 */
module ProjectCard {
  import opened Wrappers
  import opened Strings
  import opened Seqs
  import opened GitHub

  const DefaultImage: string :=
    "https://images.unsplash.com/photo-1551288049-bebda4e38f71?ixlib=rb-4.0.3&auto=format&fit=crop&w=800&h=400"
  const DefaultOwner: string := "hari3100"
  const NoDescription: string := "No description available"

  /** `repo.imageUrl` used as a condition: present and not empty. */
  predicate HasStored(repo: Repo) {
    repo.imageUrl.Some? && repo.imageUrl.value != ""
  }

  /** `repo.owner?.login || 'hari3100'`. */
  function OwnerOf(repo: Repo): (owner: string)
    ensures owner != ""
    ensures repo.ownerLogin.Some? && repo.ownerLogin.value != "" ==> owner == repo.ownerLogin.value
  {
    if repo.ownerLogin.Some? && repo.ownerLogin.value != "" then repo.ownerLogin.value else DefaultOwner
  }

  /** The repository's `showcase.png` on its main branch. */
  function ShowcaseUrl(repo: Repo): string {
    "https://raw.githubusercontent.com/" + OwnerOf(repo) + "/" + repo.name + "/main/showcase.png"
  }

  /** The two failure flags of the card. */
  datatype Flags = Flags(imageError: bool, showcaseImageError: bool)

  const Fresh: Flags := Flags(false, false)

  /** Which of the three pictures a card shows. */
  datatype Source = Stored | Showcase | Stock

  /**
   * The stored image while it has not failed, otherwise the showcase
   * picture while that has not failed, otherwise the stock photo.
   */
  function SourceOf(repo: Repo, f: Flags): (src: Source)
    ensures src == Stored <==> HasStored(repo) && !f.imageError
    ensures src == Showcase <==> !(HasStored(repo) && !f.imageError) && !f.showcaseImageError
  {
    if HasStored(repo) && !f.imageError then Stored
    else if !f.showcaseImageError then Showcase
    else Stock
  }

  /** `getImageSrc`: the address of the picture shown. */
  function ImageSrc(repo: Repo, f: Flags): (url: string)
    ensures SourceOf(repo, f) == Stored ==> HasStored(repo) && url == repo.imageUrl.value
    ensures SourceOf(repo, f) == Showcase ==> url == ShowcaseUrl(repo)
    ensures SourceOf(repo, f) == Stock ==> url == DefaultImage
  {
    match SourceOf(repo, f)
    case Stored => repo.imageUrl.value
    case Showcase => ShowcaseUrl(repo)
    case Stock => DefaultImage
  }

  /** `hasCustomImage`: whether the "custom picture" badge shows. */
  predicate HasCustomImage(repo: Repo, f: Flags) {
    (HasStored(repo) && !f.imageError) || (!f.showcaseImageError && !HasStored(repo))
  }

  /**
   * The badge shows while the stored image is on screen, and for the
   * showcase picture only when the repository has no stored image.
   */
  lemma BadgeMeaning(repo: Repo, f: Flags)
    ensures HasCustomImage(repo, f) <==>
      SourceOf(repo, f) == Stored || (SourceOf(repo, f) == Showcase && !HasStored(repo))
  {
  }

  /** The badge text: a stored image is labelled as a showcase image, the showcase picture as custom. */
  function BadgeLabel(repo: Repo): string {
    if HasStored(repo) then "Showcase Image" else "Custom Image"
  }

  /**
   * The `onError` handler marks the picture on screen as failed: the stored
   * image sets `imageError`, the showcase picture `showcaseImageError`, and a
   * failing stock photo changes nothing.  A flag is never cleared.
   */
  function OnErrorFlags(repo: Repo, f: Flags): (g: Flags)
    ensures SourceOf(repo, f) == Stored ==> g == f.(imageError := true)
    ensures SourceOf(repo, f) == Showcase ==> g == f.(showcaseImageError := true)
    ensures SourceOf(repo, f) == Stock ==> g == f
    ensures (f.imageError ==> g.imageError) && (f.showcaseImageError ==> g.showcaseImageError)
  {
    if HasStored(repo) && !f.imageError then f.(imageError := true)
    else if !f.showcaseImageError then f.(showcaseImageError := true)
    else f
  }

  /** The flags after `n` failed loads of a fresh card. */
  function FlagsAfter(repo: Repo, n: nat): Flags {
    if n == 0 then Fresh else OnErrorFlags(repo, FlagsAfter(repo, n - 1))
  }

  /** How many failures it takes to reach the stock photo: two with a stored image, one without. */
  function FailuresToDefault(repo: Repo): nat {
    if HasStored(repo) then 2 else 1
  }

  /**
   * A fresh card shows the stock photo exactly once it has seen as many
   * failures as there are pictures before it, and from then on further
   * failures change nothing.
   */
  lemma {:induction false} StockAfterFailures(repo: Repo, n: nat)
    ensures SourceOf(repo, FlagsAfter(repo, n)) == Stock <==> n >= FailuresToDefault(repo)
    ensures n >= FailuresToDefault(repo) ==> FlagsAfter(repo, n) == Flags(HasStored(repo), true)
    ensures n < FailuresToDefault(repo) ==> FlagsAfter(repo, n) == Flags(HasStored(repo) && n == 1, false)
  {
    if n > 0 {
      StockAfterFailures(repo, n - 1);
    }
  }

  /**
   * Once a stored image fails, the showcase picture is shown but the badge
   * is hidden: the badge only counts the showcase picture when there is no
   * stored image at all.
   */
  lemma StoredFailureHidesBadge(repo: Repo)
    requires HasStored(repo)
    ensures SourceOf(repo, FlagsAfter(repo, 1)) == Showcase
    ensures !HasCustomImage(repo, FlagsAfter(repo, 1))
  {
  }

  /** `repo.description || 'No description available'`. */
  function DescriptionShown(repo: Repo): (text: string)
    ensures text != ""
    ensures repo.description.Some? && repo.description.value != "" ==> text == repo.description.value
  {
    if repo.description.Some? && repo.description.value != "" then repo.description.value else NoDescription
  }

  /**
   * The topic badges: nothing without topics, otherwise the first three
   * topics and a "+k" badge for the k others when there are more than three.
   */
  function TopicBadges(repo: Repo): (badges: seq<string>)
    ensures |repo.topics| <= 3 ==> badges == repo.topics
    ensures |repo.topics| > 3 ==>
      |badges| == 4 && badges[..3] == repo.topics[..3] && badges[3] == "+" + NatToString(|repo.topics| - 3)
  {
    var p := PreviewOf(repo.topics, 3);
    p.shown + (if p.more.Some? then ["+" + NatToString(p.more.value)] else [])
  }

  /** The card's image state as the component keeps it. */
  class Card {
    const repo: Repo
    var imageError: bool
    var showcaseImageError: bool
    /** How many loads have failed so far. */
    ghost var failures: nat

    ghost predicate Valid()
      reads this
    {
      Flags(imageError, showcaseImageError) == FlagsAfter(repo, failures)
    }

    constructor(repo: Repo)
      ensures Valid() && this.repo == repo && failures == 0
      ensures SourceOf(repo, Flags(imageError, showcaseImageError)) == (if HasStored(repo) then Stored else Showcase)
    {
      this.repo := repo;
      imageError := false;
      showcaseImageError := false;
      failures := 0;
    }

    /** The image failed to load. */
    method OnError()
      requires Valid()
      modifies this
      ensures Valid() && failures == old(failures) + 1
      ensures Flags(imageError, showcaseImageError) == OnErrorFlags(repo, old(Flags(imageError, showcaseImageError)))
    {
      if HasStored(repo) && !imageError {
        imageError := true;
      } else if !showcaseImageError {
        showcaseImageError := true;
      }
      failures := failures + 1;
    }
  }
}
