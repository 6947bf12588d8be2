/** Agent names and the sizes of names and task ids, as every program of the repository checks them. */
module AgentNames {

  const MAX_NAME := 64                // bytes validate_name admits
  const MAX_TASK_ID := 32             // bytes of a task id, with its NUL

  predicate NameChar(c: char) {
    'a' <= c <= 'z' || 'A' <= c <= 'Z' || '0' <= c <= '9' || c == '_' || c == '-' || c == '.'
  }

  predicate ValidName(name: string) {
    && 0 < |name| <= MAX_NAME
    && name[0] != '.' && name[0] != '-'
    && forall k :: 0 <= k < |name| ==> NameChar(name[k])
  }

  /** A valid name is one component of a path, not hidden, not a parent, and cannot be taken for an option; so the files
      of two agents lie in two directories, both under the root. */
  lemma ValidNameIsOneComponent(name: string)
    requires ValidName(name)
    ensures '/' !in name && '\0' !in name && '\n' !in name && ' ' !in name
    ensures name != "." && name != ".." && !("-" <= name) && !("." <= name)
  {
    assert name[0] != '.';
  }
}
