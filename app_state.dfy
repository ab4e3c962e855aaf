/**
 * The web client's top-level state (`app/frontend/src/App.tsx`): the view and tab with
 * their back-stack, the guest's three free article opens, the unread notification count,
 * the category and restricted-item filters, and how a page of news is merged into the list.
 */
module AppState {
  import opened Util

  const AllCategory := "전체"
  const GuestFreeReads := 3

  /** The `ViewState` union of the header. */
  datatype View = Main | Detail | SettingsView | LoginView | LikesView | Comments | Notifications | EditProfile | Admin

  /** The bottom navigation's tabs that the app names. */
  datatype Tab = Home | Likes | Bookmark | MyPage

  datatype Entry = Entry(view: View, tab: Tab)

  datatype NewsItem = NewsItem(id: string, category: string, restricted: bool)

  datatype Notification = Notification(id: string, isRead: bool)

  // ---------------------------------------------------------------------------
  // The back-stack

  /** `navigateTo`'s history: the entry is pushed unless it is already on top. */
  function Navigated(h: seq<Entry>, e: Entry): (r: seq<Entry>)
    requires h != []
    ensures r != [] && r[|r| - 1] == e
    ensures h[|h| - 1] == e ==> r == h
    ensures h[|h| - 1] != e ==> r[..|r| - 1] == h
  {
    if h[|h| - 1] == e then h else h + [e]
  }

  /** `goBack`'s history: one entry popped, the first never. */
  function Back(h: seq<Entry>): (r: seq<Entry>)
    requires h != []
    ensures r != [] && |r| <= |h| && r <= h
    ensures |h| > 1 ==> |r| == |h| - 1
  {
    if |h| <= 1 then h else h[..|h| - 1]
  }

  /** Going back after moving somewhere new returns to where the app was. */
  lemma BackUndoesNavigate(h: seq<Entry>, e: Entry)
    requires h != [] && h[|h| - 1] != e
    ensures Back(Navigated(h, e)) == h
  {
  }

  /** Navigating back and forth never shortens the stack below its root entry. */
  lemma RootSurvives(h: seq<Entry>, e: Entry)
    requires h != []
    ensures Navigated(h, e)[0] == h[0] && Back(h)[0] == h[0]
  {
  }

  // ---------------------------------------------------------------------------
  // The filters

  /** `allFilteredItems`: every item for "전체", else the items of the chosen category. */
  function CategoryItems(items: seq<NewsItem>, category: string): seq<NewsItem>
  {
    if category == AllCategory then items else Filter(items, (n: NewsItem) => n.category == category)
  }

  /** `filteredItems`: a guest does not get the restricted items. */
  function VisibleItems(items: seq<NewsItem>, category: string, loggedIn: bool): seq<NewsItem>
  {
    var all := CategoryItems(items, category);
    if loggedIn then all else Filter(all, (n: NewsItem) => !n.restricted)
  }

  /** `hasRestrictedItems`: a guest whose category holds a restricted item. */
  predicate HasRestrictedItems(items: seq<NewsItem>, category: string, loggedIn: bool)
  {
    !loggedIn && exists n :: n in CategoryItems(items, category) && n.restricted
  }

  /** The shown items are exactly those of the category that the viewer may see. */
  lemma VisibleItemsExact(items: seq<NewsItem>, category: string, loggedIn: bool, n: NewsItem)
    ensures n in VisibleItems(items, category, loggedIn) <==>
      n in items && (category == AllCategory || n.category == category) && (loggedIn || !n.restricted)
  {
    var byCat := (x: NewsItem) => x.category == category;
    var open := (x: NewsItem) => !x.restricted;
    FilterExact(items, byCat);
    var all := CategoryItems(items, category);
    FilterExact(all, open);
    if n in items && (category == AllCategory || n.category == category) && (loggedIn || !n.restricted) {
      var i :| 0 <= i < |items| && items[i] == n;
      assert n in all;
      var j :| 0 <= j < |all| && all[j] == n;
    }
  }

  /** A guest is held back exactly when the category holds something not shown. */
  lemma RestrictedMeansHidden(items: seq<NewsItem>, category: string, loggedIn: bool)
    ensures HasRestrictedItems(items, category, loggedIn) <==>
      exists n :: n in CategoryItems(items, category) && n !in VisibleItems(items, category, loggedIn)
  {
    var all := CategoryItems(items, category);
    var open := (x: NewsItem) => !x.restricted;
    FilterExact(all, open);
    if !loggedIn {
      forall n | n in all && n !in VisibleItems(items, category, loggedIn)
        ensures n.restricted
      {
        var i :| 0 <= i < |all| && all[i] == n;
      }
    }
  }

  // ---------------------------------------------------------------------------
  // The app

  /** What `handleLoadMore` did. */
  datatype LoadMore = AskLogin | FetchPage(page: int) | Ignored

  /** How a `fetchNews` call ended: a page and the reported page count, a reply without success, or a throw. */
  datatype FetchOutcome = Fetched(items: seq<NewsItem>, totalPages: int) | NotSuccess | Failed

  class App {
    var loggedIn: bool
    var view: View
    var tab: Tab
    var history: seq<Entry>
    var selectedItem: Option<NewsItem>
    var scrollToComments: bool
    var readCount: int
    var showLoginModal: bool
    var notifications: seq<Notification>
    var unreadCount: int
    var newsItems: seq<NewsItem>
    var activeCategory: string
    var cardIndex: int
    var currentPage: int
    var hasMore: bool
    var isLoadingNews: bool

    /**
     * The history is never empty and its top is the view and tab on screen; a guest has
     * used at most three free reads; the unread count is never negative.
     */
    ghost predicate Valid()
      reads this
    {
      && history != [] && history[|history| - 1] == Entry(view, tab)
      && 0 <= readCount <= GuestFreeReads
      && unreadCount >= 0
    }

    constructor (loggedIn: bool)
      ensures Valid() && this.loggedIn == loggedIn
      ensures view == Main && tab == Home && history == [Entry(Main, Home)] && readCount == 0
      ensures newsItems == [] && activeCategory == AllCategory && currentPage == 1 && hasMore
    {
      this.loggedIn := loggedIn;
      view, tab := Main, Home;
      history := [Entry(Main, Home)];
      selectedItem, scrollToComments := None, false;
      readCount, showLoginModal := 0, false;
      notifications, unreadCount := [], 0;
      newsItems, activeCategory, cardIndex := [], AllCategory, 0;
      currentPage, hasMore, isLoadingNews := 1, true, false;
    }

    /** `navigateTo`: a missing tab keeps the current one; moving to where the app already is changes nothing. */
    method NavigateTo(newView: View, newTab: Option<Tab>)
      requires Valid()
      modifies this
      ensures Valid()
      ensures history == Navigated(old(history), Entry(newView, OrElse(newTab, old(tab))))
      ensures view == newView && tab == OrElse(newTab, old(tab))
      ensures readCount == old(readCount) && selectedItem == old(selectedItem) && newsItems == old(newsItems)
      ensures loggedIn == old(loggedIn) && showLoginModal == old(showLoginModal) && scrollToComments == old(scrollToComments)
      ensures old(Entry(view, tab)) == Entry(newView, OrElse(newTab, old(tab))) ==> history == old(history)
    {
      var tabToUse := OrElse(newTab, tab);
      if history[|history| - 1] == Entry(newView, tabToUse) {
        return;
      }
      history := history + [Entry(newView, tabToUse)];
      view := newView;
      tab := tabToUse;
    }

    /**
     * `goBack`: nothing on the root entry; otherwise the previous entry's view and tab, and
     * the open article is dropped when leaving the detail view for another kind of view.
     */
    method GoBack()
      requires Valid()
      modifies this
      ensures Valid()
      ensures history == Back(old(history))
      ensures |old(history)| <= 1 ==> view == old(view) && tab == old(tab) && selectedItem == old(selectedItem)
      ensures |old(history)| > 1 ==> Entry(view, tab) == old(history)[|old(history)| - 2]
      ensures selectedItem == (if |old(history)| > 1 && old(view) == Detail && view != Detail then None else old(selectedItem))
      ensures readCount == old(readCount) && newsItems == old(newsItems)
    {
      if |history| <= 1 {
        return;
      }
      var newHistory := history[..|history| - 1];
      var previous := newHistory[|newHistory| - 1];
      history := newHistory;
      if view == Detail && previous.view != Detail {
        selectedItem := None;
        scrollToComments := false;
      }
      view := previous.view;
      tab := previous.tab;
    }

    /**
     * `handleCardClick` and `handleCommentClick`: a signed-in user, or a guest with a free
     * read left, opens the article (a guest's read is counted); any other guest gets the
     * login prompt.
     */
    method OpenArticle(item: NewsItem, toComments: bool)
      requires Valid()
      modifies this
      ensures Valid()
      ensures (loggedIn || old(readCount) < GuestFreeReads) ==> (
        selectedItem == Some(item) && scrollToComments == toComments && view == Detail
        && history == Navigated(old(history), Entry(Detail, old(tab)))
        && readCount == (if loggedIn then old(readCount) else old(readCount) + 1)
        && showLoginModal == old(showLoginModal))
      ensures !(loggedIn || old(readCount) < GuestFreeReads) ==> (
        showLoginModal && view == old(view) && history == old(history)
        && selectedItem == old(selectedItem) && readCount == old(readCount))
      ensures tab == old(tab) && loggedIn == old(loggedIn)
    {
      if loggedIn || readCount < GuestFreeReads {
        selectedItem := Some(item);
        scrollToComments := toComments;
        NavigateTo(Detail, None);
        if !loggedIn {
          readCount := readCount + 1;
        }
      } else {
        showLoginModal := true;
      }
    }

    /** `handleReadNotification`: that notification is marked read and the unread count drops, never below zero. */
    method ReadNotification(id: string)
      requires Valid()
      modifies this
      ensures Valid()
      ensures |notifications| == |old(notifications)|
      ensures forall k :: 0 <= k < |notifications| ==>
        notifications[k] == (if old(notifications)[k].id == id then old(notifications)[k].(isRead := true) else old(notifications)[k])
      ensures unreadCount == (if old(unreadCount) > 0 then old(unreadCount) - 1 else 0)
      ensures view == old(view) && history == old(history) && readCount == old(readCount)
    {
      var next: seq<Notification> := [];
      var k := 0;
      while k < |notifications|
        invariant 0 <= k <= |notifications|
        invariant |next| == k
        invariant forall j :: 0 <= j < k ==>
          next[j] == (if notifications[j].id == id then notifications[j].(isRead := true) else notifications[j])
      {
        var n := notifications[k];
        next := next + [if n.id == id then n.(isRead := true) else n];
        k := k + 1;
      }
      notifications := next;
      unreadCount := if unreadCount - 1 > 0 then unreadCount - 1 else 0;
    }

    /** `handleCategoryChange`: the new category, from its first card. */
    method ChangeCategory(category: string)
      requires Valid()
      modifies this
      ensures Valid()
      ensures activeCategory == category && cardIndex == 0
      ensures newsItems == old(newsItems) && view == old(view) && history == old(history)
    {
      activeCategory := category;
      cardIndex := 0;
    }

    /**
     * `handleLoadMore`: a guest held back by restricted items gets the login prompt;
     * otherwise the next page is fetched, to be appended, when there is one and no fetch
     * is under way.
     */
    method LoadMoreNews() returns (r: LoadMore)
      requires Valid()
      modifies this
      ensures Valid()
      ensures r == (if HasRestrictedItems(old(newsItems), old(activeCategory), loggedIn) then AskLogin
                    else if old(hasMore) && !old(isLoadingNews) then FetchPage(old(currentPage) + 1)
                    else Ignored)
      ensures showLoginModal == (r.AskLogin? || old(showLoginModal))
      ensures isLoadingNews == (r.FetchPage? || old(isLoadingNews))
      ensures newsItems == old(newsItems) && currentPage == old(currentPage) && hasMore == old(hasMore)
    {
      if HasRestrictedItems(newsItems, activeCategory, loggedIn) {
        showLoginModal := true;
        return AskLogin;
      }
      if hasMore && !isLoadingNews {
        isLoadingNews := true;
        return FetchPage(currentPage + 1);
      }
      r := Ignored;
    }

    /**
     * The end of `fetchNews` for `page`: a success replaces the list, or appends to it, and
     * records whether more pages follow; a throw empties the list unless appending; a reply
     * without success changes nothing. Loading is over in every case.
     */
    method FetchDone(page: int, append: bool, outcome: FetchOutcome)
      requires Valid()
      modifies this
      ensures Valid()
      ensures outcome.Fetched? ==> (
        newsItems == (if append then old(newsItems) + outcome.items else outcome.items)
        && hasMore == (page < outcome.totalPages) && currentPage == page)
      ensures outcome.NotSuccess? ==> newsItems == old(newsItems) && hasMore == old(hasMore) && currentPage == old(currentPage)
      ensures outcome.Failed? ==> (
        newsItems == (if append then old(newsItems) else [])
        && hasMore == old(hasMore) && currentPage == old(currentPage))
      ensures !isLoadingNews
      ensures view == old(view) && history == old(history) && readCount == old(readCount)
    {
      match outcome {
        case Fetched(items, totalPages) =>
          newsItems := if append then newsItems + items else items;
          hasMore := page < totalPages;
          currentPage := page;
        case NotSuccess =>
        case Failed =>
          if !append {
            newsItems := [];
          }
      }
      isLoadingNews := false;
    }

    /** The effect on a change of `isLoggedIn`: signing in closes the prompt, signing out clears the notifications. */
    method SetLoggedIn(b: bool)
      requires Valid()
      modifies this
      ensures Valid()
      ensures loggedIn == b
      ensures b ==> !showLoginModal && notifications == old(notifications) && unreadCount == old(unreadCount)
      ensures !b ==> notifications == [] && unreadCount == 0 && showLoginModal == old(showLoginModal)
      ensures view == old(view) && history == old(history) && readCount == old(readCount)
    {
      loggedIn := b;
      if b {
        showLoginModal := false;
      } else {
        notifications := [];
        unreadCount := 0;
      }
    }

    /** Logging out or withdrawing from My Page: the free reads and the stack start over on the home tab. */
    method SignedOut()
      requires Valid()
      modifies this
      ensures Valid()
      ensures readCount == 0 && history == [Entry(Main, Home)] && view == Main && tab == Home
      ensures loggedIn == old(loggedIn) && newsItems == old(newsItems)
    {
      readCount := 0;
      history := [Entry(Main, Home)];
      view := Main;
      tab := Home;
    }
  }
}
