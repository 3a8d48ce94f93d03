/**
 * The user management screen: five accounts a page with clamped previous/next buttons and the
 * "Showing" line, the role label and the initials of each row, and the account form, which sends
 * a default password when none was typed.
 */
module UserManagement {
  import opened Wrappers
  import opened Seqs
  import opened Text
  import opened Records
  import Users

  const ItemsPerPage: nat := 5

  /** `Math.ceil(n / ITEMS_PER_PAGE)`: the fewest pages that hold `n` accounts. */
  function TotalPages(n: nat): (t: nat)
    ensures ItemsPerPage * t >= n
    ensures t > 0 ==> ItemsPerPage * (t - 1) < n
  {
    (n + ItemsPerPage - 1) / ItemsPerPage
  }

  /**
   * `users.slice((p - 1) * 5, p * 5)` for a page number `p`: at most five accounts, taken in
   * order from position `(p - 1) * 5`, none past the last page.
   */
  function Page<T>(xs: seq<T>, p: nat): (r: seq<T>)
    requires p >= 1
    ensures |r| <= ItemsPerPage
    ensures forall i :: 0 <= i < |r| ==> (p - 1) * ItemsPerPage + i < |xs| && r[i] == xs[(p - 1) * ItemsPerPage + i]
    ensures p <= TotalPages(|xs|) ==> |r| == Min(p * ItemsPerPage, |xs|) - (p - 1) * ItemsPerPage > 0
    ensures p > TotalPages(|xs|) ==> r == []
  {
    var lo, hi := Min((p - 1) * ItemsPerPage, |xs|), Min(p * ItemsPerPage, |xs|);
    xs[lo..hi]
  }

  /** Pages 1 to `k`, one after the other. */
  function PagesUpTo<T>(xs: seq<T>, k: nat): seq<T> {
    if k == 0 then [] else PagesUpTo(xs, k - 1) + Page(xs, k)
  }

  lemma {:induction false} PagesUpToPrefix<T>(xs: seq<T>, k: nat)
    ensures PagesUpTo(xs, k) == xs[..Min(k * ItemsPerPage, |xs|)]
  {
    if k > 0 {
      PagesUpToPrefix(xs, k - 1);
      var lo, hi := Min((k - 1) * ItemsPerPage, |xs|), Min(k * ItemsPerPage, |xs|);
      assert xs[..lo] + xs[lo..hi] == xs[..hi];
    }
  }

  /** Reading the pages in order from the first to the last gives every account once, in order. */
  lemma PagesCoverList<T>(xs: seq<T>)
    ensures PagesUpTo(xs, TotalPages(|xs|)) == xs
  {
    PagesUpToPrefix(xs, TotalPages(|xs|));
    assert xs[..|xs|] == xs;
  }

  /** "Showing `from` to `to` of `n` users". */
  function Showing(p: int, n: nat): (r: (int, int))
    ensures 1 <= p <= TotalPages(n) ==> 1 <= r.0 <= r.1 <= n && r.1 - r.0 < ItemsPerPage
  {
    ((p - 1) * ItemsPerPage + 1, Min(p * ItemsPerPage, n))
  }

  /** On every existing page the "Showing" line names exactly the positions, counted from 1, of the accounts shown. */
  lemma ShowingMatchesPage<T>(xs: seq<T>, p: nat)
    requires 1 <= p <= TotalPages(|xs|)
    ensures var (from, to) := Showing(p, |xs|);
      1 <= from <= to <= |xs| && Page(xs, p) == xs[from - 1..to]
  {
  }

  /** The page number the screen keeps; the numbered buttons run from 1 to the number of pages. */
  class Pager {
    var currentPage: int

    constructor ()
      ensures currentPage == 1
    {
      currentPage := 1;
    }

    /** The previous button: `Math.max(1, p - 1)`; from a page in range it stays in range. */
    method Previous(totalPages: int)
      modifies this
      ensures currentPage == if old(currentPage) - 1 > 1 then old(currentPage) - 1 else 1
      ensures 1 <= old(currentPage) <= totalPages ==> 1 <= currentPage <= totalPages
    {
      currentPage := if currentPage - 1 > 1 then currentPage - 1 else 1;
    }

    /** The next button: `Math.min(totalPages, p + 1)`; from a page in range it stays in range. */
    method Next(totalPages: int)
      modifies this
      ensures currentPage == Min(totalPages, old(currentPage) + 1)
      ensures 1 <= old(currentPage) <= totalPages ==> 1 <= currentPage <= totalPages
    {
      currentPage := Min(totalPages, currentPage + 1);
    }

    /** The numbered button `i + 1` of `totalPages`. */
    method GoTo(i: nat, totalPages: nat)
      requires i < totalPages
      modifies this
      ensures currentPage == i + 1 && 1 <= currentPage <= totalPages
    {
      currentPage := i + 1;
    }
  }

  // ----- the rows -----

  /** The role badge: `role.replace('_', ' ')` with each word capitalised. */
  function RoleLabel(role: string): (l: string)
    ensures |l| == |role|
  {
    Humanize(role)
  }

  lemma RoleLabelProductionManager()
    ensures RoleLabel("production_manager") == "Production Manager"
  {
    ProductionManagerWords("production", "manager");
    HumanizeTwoWords("production", "manager");
  }

  lemma RoleLabelQualityInspector()
    ensures RoleLabel("quality_inspector") == "Quality Inspector"
  {
    QualityInspectorWords("quality", "inspector");
    HumanizeTwoWords("quality", "inspector");
  }

  /** The facts about the two words of `production_manager` that `HumanizeTwoWords` needs. */
  lemma ProductionManagerWords(a: string, b: string)
    requires a == "production" && b == "manager"
    ensures LowerWord(a) && LowerWord(b) && a + "_" + b == "production_manager"
    ensures [UpperChar(a[0])] + a[1..] + " " + [UpperChar(b[0])] + b[1..] == "Production Manager"
  {
  }

  /** The facts about the two words of `quality_inspector` that `HumanizeTwoWords` needs. */
  lemma QualityInspectorWords(a: string, b: string)
    requires a == "quality" && b == "inspector"
    ensures LowerWord(a) && LowerWord(b) && a + "_" + b == "quality_inspector"
    ensures [UpperChar(a[0])] + a[1..] + " " + [UpperChar(b[0])] + b[1..] == "Quality Inspector"
  {
  }

  lemma RoleLabelAdmin()
    ensures RoleLabel("admin") == "Admin"
  {
    AdminWord();
    HumanizeWord("admin");
  }

  lemma AdminWord()
    ensures LowerWord("admin") && [UpperChar("admin"[0])] + "admin"[1..] == "Admin"
  {
  }

  /** `words.map(n => n[0]).join('')`: the first character of each word, nothing for an empty one. */
  function FirstLetters(words: seq<string>): (r: string)
    ensures |r| <= |words|
  {
    if words == [] then "" else (if words[0] == "" then "" else [words[0][0]]) + FirstLetters(words[1..])
  }

  /** The avatar's initials: `name.split(' ').map(n => n[0]).join('')`. */
  function Initials(name: string): (s: string)
    ensures |s| <= |Split(name, ' ')|
    ensures var ws := Split(name, ' ');
      (forall k :: 0 <= k < |ws| ==> ws[k] != "") ==> |s| == |ws| && forall k :: 0 <= k < |ws| ==> s[k] == ws[k][0]
  {
    FirstLettersOfWords(Split(name, ' '));
    FirstLetters(Split(name, ' '))
  }

  lemma {:induction false} FirstLettersOfWords(words: seq<string>)
    ensures (forall i :: 0 <= i < |words| ==> words[i] != "") ==>
      |FirstLetters(words)| == |words| && forall i :: 0 <= i < |words| ==> FirstLetters(words)[i] == words[i][0]
  {
    if words != [] {
      FirstLettersOfWords(words[1..]);
    }
  }

  /** A name of words separated by single spaces has one initial per word, its first letter. */
  lemma InitialsOfWords(words: seq<string>)
    requires |words| >= 1
    requires forall i :: 0 <= i < |words| ==> words[i] != "" && ' ' !in words[i]
    ensures |Initials(Join(words, ' '))| == |words|
    ensures forall i :: 0 <= i < |words| ==> Initials(Join(words, ' '))[i] == words[i][0]
  {
    SplitJoin(words, ' ');
    FirstLettersOfWords(words);
  }

  // ----- the form -----

  const DefaultPassword := "password123"

  class UserForm {
    var name: string
    var email: string
    var role: string
    var status: string
    var password: string
    var editing: Option<PublicUser>

    /** The values of `resetForm` and of the initial state. */
    predicate IsBlank()
      reads this
    {
      name == "" && email == "" && role == "production_manager" && status == "active" && password == "" && editing == None
    }

    constructor ()
      ensures IsBlank()
    {
      name, email, role, status, password, editing := "", "", "production_manager", "active", "", None;
    }

    /** `resetForm`. */
    method Reset()
      modifies this
      ensures IsBlank()
    {
      name, email, role, status, password, editing := "", "", "production_manager", "active", "", None;
    }

    /** `openEditModal`: the account's fields, and an empty password field. */
    method OpenEdit(u: PublicUser)
      modifies this
      ensures editing == Some(u) && password == ""
      ensures name == u.name && email == u.email && role == u.role && status == u.status
    {
      editing := Some(u);
      name, email, role, status, password := u.name, u.email, u.role, u.status, "";
    }

    /**
     * The body of a create: the form, with `password123` when no password was typed; the server
     * then requires only a name and an email of it.
     */
    function CreateBody(): (req: Users.Request)
      reads this
      ensures req.name == Some(name) && req.email == Some(email) && req.role == Some(role) && req.status == Some(status)
      ensures req.password == Some(if password == "" then DefaultPassword else password)
      ensures Users.HasRequired(req) <==> name != "" && email != ""
    {
      Users.Request(Some(name), Some(email), Some(if password == "" then DefaultPassword else password),
                    Some(role), Some(status))
    }
  }
}
