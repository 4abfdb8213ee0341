/**
 * The operator permission check of the bot (`has_permission`, main.py).
 * `ADMINS` is a configuration mapping from a chat user id to the list of
 * feature names that user may use; a user missing from it has no features.
 */
module Permissions {

  type UserId = int
  type Feature = string

  /** The configured `ADMINS` table. */
  type AdminTable = map<UserId, seq<Feature>>

  /** `feature in ADMINS.get(user_id, [])` */
  predicate HasPermission(admins: AdminTable, user: UserId, feature: Feature)
  {
    feature in (if user in admins then admins[user] else [])
  }

  /** A permission holds exactly when the user is configured and the feature is listed for them. */
  lemma PermissionMeaning(admins: AdminTable, user: UserId, feature: Feature)
    ensures HasPermission(admins, user, feature)
        <==> user in admins && exists i :: 0 <= i < |admins[user]| && admins[user][i] == feature
  {
  }

  /** A user id the table does not mention is refused every feature. */
  lemma UnknownUserRefused(admins: AdminTable, user: UserId, feature: Feature)
    requires user !in admins
    ensures !HasPermission(admins, user, feature)
  {
  }

  /** Granting a feature to one user gives that user the feature and changes no other permission. */
  lemma GrantIsLocal(admins: AdminTable, user: UserId, feature: Feature, other: UserId, f: Feature)
    ensures var granted := admins[user := (if user in admins then admins[user] else []) + [feature]];
      && HasPermission(granted, user, feature)
      && (other != user ==> (HasPermission(granted, other, f) <==> HasPermission(admins, other, f)))
      && (f != feature ==> (HasPermission(granted, user, f) <==> HasPermission(admins, user, f)))
  {
  }
}
