/**
 * The admin commands (/add_admin, /remove_admin, main.py:337-360) and the two permission
 * checks every command passes first (admin_only and super_admin_only, main.py:225-243).
 */
module AdminCommands {
  import opened Wrappers
  import opened Store
  import Db

  datatype AdminReply = Added(userId: int) | Removed(userId: int) | Failed

  /** admin_only: a row in the admins table, or the configured ADMIN_ID. */
  predicate MayAdmin(admins: Admins, adminId: int, user: int) {
    user in admins || user == adminId
  }

  /** super_admin_only: a row with is_sa = 1, or the configured SUPER_ADMIN_ID. */
  predicate MaySuperAdmin(admins: Admins, superAdminId: int, user: int) {
    IsSuperAdmin(admins, user) || user == superAdminId
  }

  /** Python's bool(s) on a str: true for every non-empty string, "0" included. */
  function PyBool(s: string): (b: bool)
    ensures b <==> |s| > 0
  {
    s != []
  }

  /** The flag as main.py:344 computes it from the third word. */
  function FlagAsWritten(word: string): Option<bool> {
    Some(PyBool(word))
  }

  /** The flag as the command's usage means it: an integer, non-zero for a super admin. */
  function Flag(word: string, parseInt: string -> Option<int>): (r: Option<bool>)
    ensures r.Some? <==> parseInt(word).Some?
    ensures r.Some? ==> (r.value <==> parseInt(word).value != 0)
  {
    match parseInt(word)
    case None => None
    case Some(n) => Some(n != 0)
  }

  /**
   * add_admin_handler on the admins table, with the flag decoder `flag`: three words, an
   * integer user id and a decodable flag, then insert or replace; any failure is reported
   * and changes nothing.
   */
  function AddAdminWith(admins: Admins, words: seq<string>, parseInt: string -> Option<int>,
                        flag: string -> Option<bool>): (Admins, AdminReply)
  {
    if |words| != 3 || parseInt(words[1]).None? || flag(words[2]).None? then (admins, Failed)
    else (PutAdmin(admins, parseInt(words[1]).value, flag(words[2]).value), Added(parseInt(words[1]).value))
  }

  function AddAdminAsWritten(admins: Admins, words: seq<string>, parseInt: string -> Option<int>): (Admins, AdminReply) {
    AddAdminWith(admins, words, parseInt, FlagAsWritten)
  }

  function AddAdminStep(admins: Admins, words: seq<string>, parseInt: string -> Option<int>): (Admins, AdminReply) {
    AddAdminWith(admins, words, parseInt, w => Flag(w, parseInt))
  }

  /**
   * As written, the words of message.text.split() are never empty, so every admin the
   * command adds is a super admin: `/add_admin 42 0` lets user 42 pass super_admin_only.
   */
  lemma AsWrittenZeroGrantsSuperAdmin(admins: Admins, parseInt: string -> Option<int>,
                                      cmd: string, id: string, user: int, superAdminId: int)
    requires parseInt(id) == Some(user)
    ensures var after := AddAdminAsWritten(admins, [cmd, id, "0"], parseInt);
      after.1 == Added(user) && IsSuperAdmin(after.0, user) && MaySuperAdmin(after.0, superAdminId, user)
  {
  }

  /** The corrected flag: "0" adds a plain admin, who passes admin_only but not the super admin check. */
  lemma ZeroAddsPlainAdmin(admins: Admins, parseInt: string -> Option<int>,
                           cmd: string, id: string, user: int, adminId: int, superAdminId: int)
    requires parseInt(id) == Some(user) && parseInt("0") == Some(0) && user != superAdminId
    ensures var after := AddAdminStep(admins, [cmd, id, "0"], parseInt);
      after.1 == Added(user) && MayAdmin(after.0, adminId, user) && !MaySuperAdmin(after.0, superAdminId, user)
  {
  }

  /** With the corrected flag the stored role is the integer's truth value, and other admins are untouched. */
  lemma AddAdminSpec(admins: Admins, words: seq<string>, parseInt: string -> Option<int>)
    ensures var after := AddAdminStep(admins, words, parseInt);
      && (after.1 == Failed <==> |words| != 3 || parseInt(words[1]).None? || parseInt(words[2]).None?)
      && (after.1 == Failed ==> after.0 == admins)
      && (after.1 != Failed ==>
            var user := parseInt(words[1]).value;
            && after.1 == Added(user)
            && after.0.Keys == admins.Keys + {user}
            && (IsSuperAdmin(after.0, user) <==> parseInt(words[2]).value != 0)
            && forall u :: u in admins && u != user ==> after.0[u] == admins[u])
  {
  }

  /** remove_admin_handler: two words and an integer id, then the row is deleted. */
  function RemoveAdminStep(admins: Admins, words: seq<string>, parseInt: string -> Option<int>): (r: (Admins, AdminReply))
    ensures r.1 == Failed <==> |words| != 2 || parseInt(words[1]).None?
    ensures r.1 == Failed ==> r.0 == admins
    ensures r.1 != Failed ==>
      && r.1 == Removed(parseInt(words[1]).value)
      && r.0 == admins - {parseInt(words[1]).value}
  {
    if |words| != 2 || parseInt(words[1]).None? then (admins, Failed)
    else (admins - {parseInt(words[1]).value}, Removed(parseInt(words[1]).value))
  }

  /** A removed user passes neither check unless it is one of the configured ids. */
  lemma RemovedLosesAccess(admins: Admins, words: seq<string>, parseInt: string -> Option<int>, adminId: int, superAdminId: int)
    requires RemoveAdminStep(admins, words, parseInt).1.Removed?
    ensures var user := RemoveAdminStep(admins, words, parseInt).1.userId;
      var after := RemoveAdminStep(admins, words, parseInt).0;
      && (MayAdmin(after, adminId, user) <==> user == adminId)
      && (MaySuperAdmin(after, superAdminId, user) <==> user == superAdminId)
  {
  }

  /** add_admin_handler (main.py:337-348) with the corrected flag: the third word decoded as an integer, not bool(is_sa). */
  method AddAdminHandler(db: Db.Database, words: seq<string>, parseInt: string -> Option<int>)
    returns (reply: AdminReply)
    modifies db
    ensures (db.admins, reply) == AddAdminStep(old(db.admins), words, parseInt)
    ensures db.seenPosts == old(db.seenPosts) && db.activeFeeds == old(db.activeFeeds)
  {
    if |words| != 3 {
      return Failed;
    }
    var user := parseInt(words[1]);
    var isSa := Flag(words[2], parseInt);
    if user.None? || isSa.None? {
      return Failed;
    }
    db.AddAdmin(user.value, isSa.value);
    reply := Added(user.value);
  }

  /** remove_admin_handler (main.py:350-360). */
  method RemoveAdminHandler(db: Db.Database, words: seq<string>, parseInt: string -> Option<int>)
    returns (reply: AdminReply)
    modifies db
    ensures (db.admins, reply) == RemoveAdminStep(old(db.admins), words, parseInt)
    ensures db.seenPosts == old(db.seenPosts) && db.activeFeeds == old(db.activeFeeds)
  {
    if |words| != 2 {
      return Failed;
    }
    var user := parseInt(words[1]);
    if user.None? {
      return Failed;
    }
    db.RemoveAdmin(user.value);
    reply := Removed(user.value);
  }
}
