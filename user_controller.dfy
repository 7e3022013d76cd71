/** userController.js: the signed-in user's profile data and their list of
    recently searched cities. The caller is the user `authMiddleware` loaded. */
module UserController {
  import opened Models
  import opened Store

  /** How many recent searches the list keeps once full. */
  const MaxRecentCities: nat := 3

  datatype UserData = UserData(role: Role, recentSearchedCities: seq<string>)

  /** `getUserData`: the caller's role and recent searches. */
  function GetUserData(u: User): (r: UserData)
    ensures r.role == u.role && r.recentSearchedCities == u.recentSearchedCities
  {
    UserData(u.role, u.recentSearchedCities)
  }

  /** The last `n` elements of `s`, or all of `s` when it is shorter. */
  function LastN<T>(s: seq<T>, n: nat): (r: seq<T>)
    ensures |r| == if |s| <= n then |s| else n
  {
    if |s| <= n then s else s[|s| - n..]
  }

  /** The list after one search: appended while shorter than three, otherwise
      the oldest entry is dropped first. There is no de-duplication. */
  function RecentCitiesAfter(cities: seq<string>, city: string): (r: seq<string>)
    ensures |r| > 0 && r[|r| - 1] == city
    ensures |r| == if |cities| < MaxRecentCities then |cities| + 1 else |cities|
    ensures forall k :: 0 <= k < |r| - 1 ==> r[k] == cities[|cities| + 1 - |r| + k]
    ensures |cities| <= MaxRecentCities ==> r == LastN(cities + [city], MaxRecentCities)
  {
    if |cities| < MaxRecentCities then cities + [city]
    else cities[1..] + [city]
  }

  /** A city searched again is stored again. */
  lemma RepeatedCityIsKeptTwice(cities: seq<string>, city: string)
    requires city in cities && |cities| < MaxRecentCities
    ensures multiset(RecentCitiesAfter(cities, city))[city] == multiset(cities)[city] + 1
    ensures multiset(RecentCitiesAfter(cities, city))[city] >= 2
  {
  }

  /** Several searches in a row. */
  function StoreAll(cities: seq<string>, searches: seq<string>): (r: seq<string>)
    decreases |searches|
  {
    if searches == [] then cities
    else StoreAll(RecentCitiesAfter(cities, searches[0]), searches[1..])
  }

  /** Starting from a list of at most three, the list always holds the three
      most recent searches (fewer while fewer were made), oldest first. */
  lemma {:induction false} StoreAllKeepsLastThree(cities: seq<string>, searches: seq<string>)
    requires |cities| <= MaxRecentCities
    ensures StoreAll(cities, searches) == LastN(cities + searches, MaxRecentCities)
    decreases |searches|
  {
    if searches != [] {
      var first, rest := searches[0], searches[1..];
      var next := RecentCitiesAfter(cities, first);
      StoreAllKeepsLastThree(next, rest);
      LastNOfLastN(cities + [first], rest, MaxRecentCities);
      assert cities + [first] + rest == cities + searches by {
        assert searches == [first] + rest;
      }
    }
  }

  /** Trimming before appending more does not change the last `n`. */
  lemma LastNOfLastN<T>(s: seq<T>, t: seq<T>, n: nat)
    ensures LastN(LastN(s, n) + t, n) == LastN(s + t, n)
  {
    var u := LastN(s, n);
    if |s| > n {
      var a := LastN(u + t, n);
      var b := LastN(s + t, n);
      assert |a| == |b|;
      forall k | 0 <= k < |a| ensures a[k] == b[k] {
        var j := |u + t| - |a| + k;
        if j < |u| {
          assert (u + t)[j] == u[j] == s[|s| - n + j];
          assert (s + t)[|s + t| - |b| + k] == s[|s| - n + j];
        } else {
          assert (u + t)[j] == t[j - |u|];
        }
      }
    }
  }

  /** `storeRecentSearchedCities`: the caller's list is updated as above and
      nothing else changes. Each entry is a required string, so `user.save()`
      rejects an empty city (an absent `recentSearchedCity` arrives as the empty
      string here): 500 and nothing stored. */
  method StoreRecentSearchedCities(db: Database, userId: string, city: string) returns (status: int)
    requires db.Valid() && userId in db.users
    modifies db
    ensures db.Valid()
    ensures status == 200 || status == 500
    ensures status == 500 <==> !Required(city)
    ensures status == 500 ==> db.users == old(db.users)
    ensures status == 200 ==> db.users == old(db.users)[userId :=
      old(db.users)[userId].(recentSearchedCities := RecentCitiesAfter(old(db.users)[userId].recentSearchedCities, city))]
    ensures db.bookings == old(db.bookings) && db.rooms == old(db.rooms) && db.hotels == old(db.hotels)
  {
    var user := db.users[userId];
    var cities := user.recentSearchedCities;
    if |cities| < MaxRecentCities {
      cities := cities + [city];
    } else {
      cities := cities[1..];
      cities := cities + [city];
    }
    if !Required(city) {
      return 500;  // the save fails validation
    }
    db.users := db.users[userId := user.(recentSearchedCities := cities)];
    status := 200;
  }
}
