/** profileController.js: the follow toggle, the public profile view and the profile-update fields. */
module Profiles {
  import opened Results
  import opened Models
  import opened Seqs
  import opened Store
  import opened Text

  /** Whether `a` lists `b` among its followings. */
  predicate Follows(a: User, b: User) {
    b.id in a.following
  }

  /**
   * The users after `toggleFollow` by the user at index `c` of the user at index `t`:
   * an unfollow when `c` already follows `t`, a follow otherwise.
   */
  function FollowToggled(users: seq<User>, c: nat, t: nat): (r: seq<User>)
    requires c < |users| && t < |users| && c != t
    ensures |r| == |users|
    ensures forall k :: 0 <= k < |users| && k != c && k != t ==> r[k] == users[k]
    ensures r[c] == users[c].(following := r[c].following)
    ensures r[t] == users[t].(followers := r[t].followers)
    ensures users[t].id in r[c].following <==> !Follows(users[c], users[t])
    ensures users[c].id in r[t].followers <==> !Follows(users[c], users[t])
    ensures forall x :: x != users[t].id ==> (x in r[c].following <==> x in users[c].following)
    ensures forall x :: x != users[c].id ==> (x in r[t].followers <==> x in users[t].followers)
    ensures Follows(users[c], users[t]) ==>
              && r[c].following == Without(users[c].following, users[t].id)
              && r[t].followers == Without(users[t].followers, users[c].id)
    ensures !Follows(users[c], users[t]) ==>
              && r[c].following == users[c].following + [users[t].id]
              && r[t].followers == users[t].followers + [users[c].id]
  {
    var caller := users[c];
    var target := users[t];
    if Follows(caller, target) then
      users[c := caller.(following := Without(caller.following, target.id))]
           [t := target.(followers := Without(target.followers, caller.id))]
    else
      users[c := caller.(following := caller.following + [target.id])]
           [t := target.(followers := target.followers + [caller.id])]
  }

  /** The follow relation stays symmetric across a toggle. */
  lemma {:induction false} FollowToggledSymmetric(users: seq<User>, c: nat, t: nat)
    requires c < |users| && t < |users| && c != t
    requires UniqueUserIds(users) && FollowSymmetric(users)
    ensures UniqueUserIds(FollowToggled(users, c, t))
    ensures FollowSymmetric(FollowToggled(users, c, t))
  {
    var r := FollowToggled(users, c, t);
    var already := Follows(users[c], users[t]);
    forall i, j | 0 <= i < |r| && 0 <= j < |r|
      ensures r[i].id in r[j].followers <==> r[j].id in r[i].following
    {
      var a, b := users[i].id, users[j].id;
      assert r[i].id == a && r[j].id == b;
      assert a in users[j].followers <==> b in users[i].following;
      if j == t && i == c {
      } else if j == t {
        assert a != users[c].id;
        assert r[i].following == users[i].following;
      } else if i == c {
        assert b != users[t].id;
        assert r[j].followers == users[j].followers;
      } else {
        assert r[i].following == users[i].following && r[j].followers == users[j].followers;
      }
    }
  }

  datatype FollowReply = FollowReply(isFollowing: bool, followersCount: nat)

  /**
   * `toggleFollow`: the caller follows or unfollows the user called `username`.
   * The caller is the account the authentication middleware loaded.
   */
  method ToggleFollow(db: Database, caller: Id, username: string) returns (r: Result<FollowReply>)
    requires db.Valid()
    requires UserIndex(db.users, caller).Some?
    modifies db`users, db`notifications, db`clock, db`nextId
    ensures db.Valid()
    ensures UserByName(old(db.users), username).None? ==>
              r == Err(NotFound) && db.users == old(db.users) && db.notifications == old(db.notifications)
              && db.clock == old(db.clock) && db.nextId == old(db.nextId)
    ensures UserByName(old(db.users), username).Some? ==>
              var t := UserByName(old(db.users), username).value;
              var c := UserIndex(old(db.users), caller).value;
              if t == c then
                r == Err(BadRequest) && db.users == old(db.users) && db.notifications == old(db.notifications)
                && db.clock == old(db.clock) && db.nextId == old(db.nextId)
              else
                var already := Follows(old(db.users)[c], old(db.users)[t]);
                && db.users == FollowToggled(old(db.users), c, t)
                && r == Ok(FollowReply(!already, |db.users[t].followers|))
                && db.notifications == old(db.notifications) +
                     if already then []
                     else [NewNotification(old(db.nextId), old(db.users)[t].id, caller, FollowType, old(db.clock))]
  {
    var target := UserByName(db.users, username);
    var c := UserIndex(db.users, caller).value;
    if target.None? {
      return Err(NotFound);
    }
    var t := target.value;
    // A user cannot follow or unfollow themself.
    if db.users[t].id == db.users[c].id {
      return Err(BadRequest);
    }
    var currentUser := db.users[c];
    var targetUser := db.users[t];
    var alreadyFollowing := targetUser.id in currentUser.following;
    if alreadyFollowing {
      currentUser := currentUser.(following := Without(currentUser.following, targetUser.id));
      targetUser := targetUser.(followers := Without(targetUser.followers, currentUser.id));
    } else {
      currentUser := currentUser.(following := currentUser.following + [targetUser.id]);
      targetUser := targetUser.(followers := targetUser.followers + [currentUser.id]);
      var _ := db.CreateNotification(targetUser.id, currentUser.id, FollowType);
    }
    FollowToggledSymmetric(db.users, c, t);
    db.users := db.users[c := currentUser];
    db.users := db.users[t := targetUser];
    r := Ok(FollowReply(!alreadyFollowing, |targetUser.followers|));
  }

  /** What `getProfileByUsername` answers. */
  datatype ProfileView = ProfileView(
    user: User, followersCount: nat, followingCount: nat, posts: seq<Post>,
    isOwnProfile: bool, isFollowing: bool)

  /** `getProfileByUsername` as seen by `caller`. */
  function ProfileByUsername(users: seq<User>, posts: seq<Post>, caller: Id, username: string): (r: Result<ProfileView>)
    ensures r.Err? <==> forall j :: 0 <= j < |users| ==> users[j].username != username
    ensures r.Err? ==> r.status == NotFound
    ensures r.Ok? ==>
              var v := r.value;
              && v.user in users && v.user.username == username
              && v.followersCount == |v.user.followers|
              && v.followingCount == |v.user.following|
              && (v.isFollowing <==> caller in v.user.followers)
              && (v.isOwnProfile <==> caller == v.user.id)
              && (forall p :: multiset(v.posts)[p] == if p.author == v.user.id then multiset(posts)[p] else 0)
              && SortedBy(v.posts, (p: Post) => p.createdAt, true)
  {
    match UserByName(users, username)
    case None => Err(NotFound)
    case Some(i) =>
      var user := users[i];
      var own := SortBy(Filter(posts, (p: Post) => p.author == user.id), (p: Post) => p.createdAt, true);
      Ok(ProfileView(user, |user.followers|, |user.following|, own, caller == user.id, caller in user.followers))
  }

  /** The `skills` field of an update request. */
  datatype SkillsField = Missing | Str(value: string) | Arr(items: seq<string>)

  /** The `skills` entry of the update: an array as given, a string split on "," and trimmed, nothing when falsy. */
  function NormaliseSkills(skills: SkillsField): (r: Option<seq<string>>)
    ensures skills.Arr? ==> r == Some(skills.items)
    ensures r.None? <==> skills.Missing? || skills == Str("")
    ensures skills.Str? && r.Some? ==>
              var pieces := Split(skills.value, ',');
              && |r.value| == |pieces|
              && (forall i :: 0 <= i < |r.value| ==> r.value[i] == Trim(pieces[i]) && ',' !in r.value[i])
              && Join(pieces, ',') == skills.value
  {
    match skills
    case Missing => None
    case Str(s) => if s == "" then None else Some(TrimAll(Split(s, ',')))
    case Arr(items) => Some(items)
  }

  /** The fields `updateProfile` passes to `findByIdAndUpdate`; `None` is an absent key. */
  datatype ProfileUpdates = ProfileUpdates(
    name: Option<string>, bio: Option<string>, github: Option<string>, linkedin: Option<string>,
    skills: Option<seq<string>>, avatar: Option<string>)

  /** The update built from the request body and the path of an uploaded avatar, if any. */
  function Updates(name: Option<string>, bio: Option<string>, skills: SkillsField,
                   github: Option<string>, linkedin: Option<string>, avatarPath: Option<string>): (u: ProfileUpdates)
    ensures u.name == name && u.bio == bio && u.github == github && u.linkedin == linkedin
    ensures u.skills.Some? <==> !(skills.Missing? || skills == Str(""))
    ensures u.skills == NormaliseSkills(skills)
    ensures u.avatar == avatarPath
  {
    ProfileUpdates(name, bio, github, linkedin, NormaliseSkills(skills), avatarPath)
  }
}
