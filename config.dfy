/** The storage keys of src/config.js and the resolvers' own key constants. */
module Config {
  const RequirementsKey: string := "user-requirements"
  const ValidationChecklistKey: string := "validation-checklist"
  const VerificationChecklistKey: string := "verification-checklist"
  const UserTypesKey: string := "user-types"
  const StagesKey: string := "user-stages"
  const StatusKey: string := "user-status"
  const JoinKey: string := "requirement-issue-join"
  /** The key typeResolvers.js declares for itself, unlike `UserTypesKey`. */
  const TypesKey: string := "types"
  /** The snapshot catalog of versionResolvers.js. */
  const VersionsKey: string := "versions"
}
