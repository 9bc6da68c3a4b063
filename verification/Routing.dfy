/** Which logs are suppressed and where the others go (logging/messages, store/memory/channel.go). */
module Routing {
  import opened Common
  import opened MessageTable

  datatype ChannelKind = Plain | Category | AnnouncementThread | PublicThread | PrivateThread

  datatype Channel = Channel(id: ChannelId, kind: ChannelKind, parent: ChannelId)

  /** The stored channels. */
  type Tree = map<ChannelId, Channel>

  predicate IsThread(c: Channel) {
    c.kind == AnnouncementThread || c.kind == PublicThread || c.kind == PrivateThread
  }

  /** The channel itself, or a thread's parent; None when it is not stored. */
  function RootChannel(tree: Tree, id: ChannelId): Option<Channel> {
    if id !in tree then None
    else if !IsThread(tree[id]) then Some(tree[id])
    else if tree[id].parent in tree then Some(tree[tree[id].parent])
    else None
  }

  datatype Config = Config(updateLog: ChannelId, deleteLog: ChannelId, bulkDeleteLog: ChannelId,
                           redirects: map<ChannelId, ChannelId>, globalChannels: set<ChannelId>,
                           globalUsers: set<UserId>, perChannel: map<ChannelId, set<UserId>>)
  {
    predicate IgnoresUserIn(c: ChannelId, u: UserId) {
      c in perChannel && u in perChannel[c]
    }
  }

  /** The handlers' checks, in their order. */
  predicate Ignored(cfg: Config, channel: ChannelId, root: Channel, user: UserId) {
    if channel in cfg.globalChannels then true
    else if root.id in cfg.globalChannels || (IsValid(root.parent) && root.parent in cfg.globalChannels) then true
    else if user in cfg.globalUsers then true
    else
      cfg.IgnoresUserIn(channel, user) || cfg.IgnoresUserIn(root.id, user)
      || (IsValid(root.parent) && cfg.IgnoresUserIn(root.parent, user))
  }

  /** The handlers' choice of log channel. */
  function LogChannel(cfg: Config, default: ChannelId, channel: ChannelId, root: Channel): ChannelId {
    if channel in cfg.redirects then cfg.redirects[channel]
    else if root.id in cfg.redirects then cfg.redirects[root.id]
    else if root.parent in cfg.redirects && IsValid(root.parent) then cfg.redirects[root.parent]
    else default
  }

  // ---- the simple rule ----

  /** Threads hang below channels or categories, channels below what hangs below nothing. */
  ghost predicate Layered(tree: Tree) {
    forall id | id in tree ::
      var c := tree[id];
      && c.id == id
      && (c.kind == Plain || c.kind == Category || IsValid(c.parent))
      && (c.parent in tree ==>
            var p := tree[c.parent];
            && (p.kind == Plain || p.kind == Category)
            && ((c.kind == Plain || c.kind == Category) && IsValid(c.parent) ==> !IsValid(p.parent)))
  }

  ghost function Depth(tree: Tree, id: ChannelId): nat {
    if id !in tree then 0
    else if tree[id].kind != Plain && tree[id].kind != Category then 3
    else if IsValid(tree[id].parent) then 2
    else 1
  }

  /** The channel, its parent, its parent's parent, as far as they are known. */
  ghost function Ancestors(tree: Tree, id: ChannelId): seq<ChannelId>
    requires Layered(tree)
    decreases Depth(tree, id)
  {
    [id] + if id in tree && IsValid(tree[id].parent) then Ancestors(tree, tree[id].parent) else []
  }

  /** The user is ignored everywhere, or something on the path is ignored, for everyone or for the user. */
  ghost predicate SuppressedOn(cfg: Config, path: seq<ChannelId>, user: UserId) {
    || user in cfg.globalUsers
    || exists c ::
         c in path && (c in cfg.globalChannels || (c in cfg.perChannel && user in cfg.perChannel[c]))
  }

  /** The first redirect along the path. */
  ghost function FirstRedirect(cfg: Config, default: ChannelId, path: seq<ChannelId>): ChannelId {
    if path == [] then default
    else if path[0] in cfg.redirects then cfg.redirects[path[0]]
    else FirstRedirect(cfg, default, path[1..])
  }

  /** The channel is stored, and what a thread hangs below too. */
  ghost predicate Placed(tree: Tree, id: ChannelId) {
    id in tree && (tree[id].kind == Plain || tree[id].kind == Category || tree[id].parent in tree)
  }

  /** The simple rule: nothing on the path is ignored, and the log goes to the first redirect on the way up. */
  ghost function Receiver(cfg: Config, default: ChannelId, tree: Tree, channel: ChannelId, user: UserId)
    : Option<ChannelId>
    requires Layered(tree)
  {
    var path := Ancestors(tree, channel);
    var first := FirstRedirect(cfg, default, path);
    if Placed(tree, channel) && !SuppressedOn(cfg, path, user) && IsValid(first) then Some(first) else None
  }

  lemma AncestorsOf(tree: Tree, channel: ChannelId)
    requires Layered(tree) && RootChannel(tree, channel).Some?
    ensures var root := RootChannel(tree, channel).value;
            var up := if IsValid(root.parent) then [root.parent] else [];
            Ancestors(tree, channel) == (if root.id == channel then [channel] else [channel, root.id]) + up
  {
    var root := RootChannel(tree, channel).value;
    if IsValid(root.parent) {
      assert root.parent in tree ==> !IsValid(tree[root.parent].parent);
      assert Ancestors(tree, root.parent) == [root.parent];
    }
    assert Ancestors(tree, root.id) == [root.id] + if IsValid(root.parent) then [root.parent] else [];
    if root.id != channel {
      assert Ancestors(tree, channel) == [channel] + Ancestors(tree, root.id);
    }
  }

  lemma RedirectsUnfold(cfg: Config, default: ChannelId, path: seq<ChannelId>)
    requires 1 <= |path| <= 3
    ensures FirstRedirect(cfg, default, path) ==
            if path[0] in cfg.redirects then cfg.redirects[path[0]]
            else if |path| > 1 && path[1] in cfg.redirects then cfg.redirects[path[1]]
            else if |path| > 2 && path[2] in cfg.redirects then cfg.redirects[path[2]]
            else default
  {
  }

  /** The handlers follow the simple rule: a log is suppressed exactly when something above its channel or its user is
      ignored, and otherwise goes to the first redirect on the way up. */
  lemma HandlersFollowTree(cfg: Config, default: ChannelId, tree: Tree, channel: ChannelId, user: UserId)
    requires Layered(tree) && RootChannel(tree, channel).Some?
    ensures var root := RootChannel(tree, channel).value;
            && (Ignored(cfg, channel, root, user) <==> SuppressedOn(cfg, Ancestors(tree, channel), user))
            && LogChannel(cfg, default, channel, root) == FirstRedirect(cfg, default, Ancestors(tree, channel))
  {
    AncestorsOf(tree, channel);
    var root := RootChannel(tree, channel).value;
    var path := Ancestors(tree, channel);
    assert path[0] == channel;
    if root.id != channel {
      assert path[1] == root.id;
      assert IsValid(root.parent) ==> path[2] == root.parent;
    } else {
      assert IsValid(root.parent) ==> path[1] == root.parent;
    }
    RedirectsUnfold(cfg, default, path);
  }
}
