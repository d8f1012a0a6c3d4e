# Portfolio page: skill grouping and contact-form state

The portfolio is a single React component (`src/App.tsx`). Almost all of it is
markup. This project models the two parts that make decisions.

* **Skill grouping** (module `SkillGrouping`, `skill_grouping.dfy`). The
  "My Tech Stack" section reduces the `skillsData` list into a dictionary from
  category to skills. It creates a category's list the first time that
  category is seen and then pushes the skill onto it. `Object.entries` then
  renders the dictionary in key-insertion order.
  - `GroupSkills` is that reduce, written as a loop. It fills a `map` and a
    key list, `order`, which stands for the dictionary's insertion order.
  - It is proved equal to two pure functions: `GroupBy` (the filter of the
    input by category) and `Keys` (the categories in order of first
    occurrence).
  - Lemmas about those functions state the grouping's guarantees: nothing is
    lost or duplicated, there are no empty groups, order is stable within a
    group, and keys come out in first-occurrence order.
  - The page's own `skillsData` literal is worked through as a concrete case.
* **Contact form and menu state** (module `ContactForm`, `contact_form.dfy`).
  - The component state becomes the class `ContactFormState`. It holds the
    `formData` record, the `isSubmitted` acknowledgement flag and the
    `activeNav` menu flag.
  - There is one method per event: an edit, a submit, a timer callback,
    toggling the menu and closing it.
  - The timers started by `setTimeout` are a ghost queue, `pendingTimers`,
    oldest first. Each timer is named by the ordinal of the accepted
    submission that scheduled it. The ghost counter `submissions` counts the
    accepted submissions. Both exist only in the model, not in the component.
  - The environment fires the oldest timer by calling `TimerFire`. All timers
    use the same delay, so they fire in the order they were scheduled.
  - `Valid()` is the invariant every event keeps:
    - the queue is strictly increasing;
    - its last timer belongs to the latest submission;
    - the acknowledgement is shown only over a blank form while a timer is
      pending.

The code never cancels a timer. A cancellable timer would let a new edit or
submission supersede the pending one, but the code keeps no handle from
`setTimeout`, so an older submission's timer can hide a newer submission's
acknowledgement early. The model follows the code:
`TimerFire` clears `isSubmitted` whichever submission scheduled the timer, and
`StaleTimerScenario` builds such a trace.

## Model

| member | source | states |
|---|---|---|
| `SkillGrouping.GroupSkills` | src/App.tsx:109-115 | the reduce's dictionary is exactly `GroupBy(skills)`, its key list is `Keys(skills)`, and the dictionary has exactly the listed keys |
| `SkillGrouping.GroupByStep` | src/App.tsx:110-113 | one reduce step adds the skill's category to the keys only if it is new, and leaves the dictionary equal to the old one with the skill pushed onto its category's list (an absent list counts as empty) |
| `SkillGrouping.GroupBySnoc` | src/App.tsx:110-113 | appending a skill extends only its own category's group, by that skill at the end, and adds a key only for a category not seen before |
| `SkillGrouping.MembersAbsent` | src/App.tsx:110-111 | a category that no skill carries has no members |
| `SkillGrouping.MembersAppend` | src/App.tsx:109-115 | grouping the concatenation of two inputs gives, per category, the first input's group followed by the second's |
| `SkillGrouping.MembersOfCategory` | src/App.tsx:113 | a group holds only skills of its own category, and no more than the input has |
| `SkillGrouping.MembersFromInput` | src/App.tsx:113 | every skill in a group is a skill of the input |
| `SkillGrouping.KeysDistinct` | src/App.tsx:110-111 | no category is listed twice among the keys |
| `SkillGrouping.KeysOccur` | src/App.tsx:110-111 | a category is a key exactly when some input skill carries it |
| `SkillGrouping.NoEmptyGroup` | src/App.tsx:110-113 | a dictionary entry exists exactly for the categories that occur, and no entry is an empty list |
| `SkillGrouping.MemberAt` | src/App.tsx:113 | skill `i` is in its own category's group, at the position given by the number of earlier skills of that category |
| `SkillGrouping.StableOrder` | src/App.tsx:113 | two skills of one category keep their relative input order inside the group |
| `SkillGrouping.ExactlyOneGroup` | src/App.tsx:109-115 | every skill's category is a key, and the skill lies in that group and in no other group |
| `SkillGrouping.SizeSumSnoc` | src/App.tsx:113 | appending one skill increases the summed size of a set of distinct groups by one exactly when the set holds the skill's category |
| `SkillGrouping.GroupSizesSum` | src/App.tsx:109-115 | the group sizes, summed over the keys, equal the number of input skills |
| `SkillGrouping.FirstIndex` | src/App.tsx:110-111 | the index it returns holds a skill of the given category, and no earlier skill has that category |
| `SkillGrouping.FirstIndexSnoc` | src/App.tsx:110-111 | appending a skill does not move the first occurrence of a category already seen |
| `SkillGrouping.KeysInFirstOccurrenceOrder` | src/App.tsx:110-111 | for any two keys, the earlier key's category first occurs earlier in the input; this is the order `Object.entries` yields at line 263 |
| `SkillGrouping.ExampleKeyOrder` | src/App.tsx:110-111 | the input categories Frontend, Backend, Frontend, Database give the keys Frontend, Backend, Database |
| `SkillGrouping.KeysAppendSeen` | src/App.tsx:110-111 | appending skills whose categories are all keys already adds no key |
| `SkillGrouping.KeysAppendRun` | src/App.tsx:110-111 | appending a non-empty run of one new category adds exactly that key, last |
| `SkillGrouping.MembersOfRun` | src/App.tsx:113 | a run of one category is entirely that category's group and contributes nothing to the others |
| `SkillGrouping.MembersAppendRun` | src/App.tsx:113 | appending a run of one category extends that category's group by the run and leaves the other groups alone |
| `SkillGrouping.KeysOfRuns` | src/App.tsx:110-111 | four non-empty runs of Frontend, Backend, Database and Tools skills give exactly those four keys, in that order |
| `SkillGrouping.MembersOfRuns` | src/App.tsx:113 | over four such runs, each category's group is exactly its run |
| `SkillGrouping.SkillsDataKeys` | src/App.tsx:67-89 | on the page's `skillsData`, the section headings are Frontend, Backend, Database, Tools in that order |
| `SkillGrouping.SkillsDataGroups` | src/App.tsx:67-89 | on the page's `skillsData`, each category's group is exactly its run of the literal (8, 4, 4 and 5 skills) |
| `ContactForm.FormData.With` | src/App.tsx:93 | `{ ...prev, [name]: value }` has the edited field equal to the new value and every other field as before |
| `ContactForm.FormData.IsComplete` | src/App.tsx:99 | the truthiness test holds exactly when no field is the empty string |
| `ContactForm.ContactFormState.constructor` | src/App.tsx:18-20 | on page load the fields are empty, neither flag is set, no timer is pending, and the invariant holds |
| `ContactForm.ContactFormState.HandleInputChange` | src/App.tsx:91-95 | an edit sets exactly the named field to the value, leaves the other two fields, the menu and the timers unchanged, and leaves `isSubmitted` false |
| `ContactForm.ContactFormState.HandleSubmit` | src/App.tsx:97-107 | it alerts exactly when some field is empty, and then changes nothing; otherwise it sets `isSubmitted`, blanks all three fields and schedules one more timer, tagged with the new submission |
| `ContactForm.ContactFormState.TimerFire` | src/App.tsx:103 | the oldest timer leaves the queue and `isSubmitted` becomes false, with no check of which submission scheduled it; if more timers are pending, the fired one belongs to an older submission than the latest |
| `ContactForm.ContactFormState.ToggleMenu` | src/App.tsx:171 | the menu flag is negated and nothing else changes |
| `ContactForm.ContactFormState.CloseMenu` | src/App.tsx:193 | the menu flag becomes false and nothing else changes |
| `ContactForm.FillIn` | src/App.tsx:91-95 | typing a record into the three fields leaves exactly that record in the form, no acknowledgement shown, and the menu and the timers unchanged |
| `ContactForm.RejectedSubmitScenario` | src/App.tsx:104-105 | submitting with the name empty (email `a@b.com`, message `hi`) alerts, shows no acknowledgement and keeps the fields as typed |
| `ContactForm.StaleTimerScenario` | src/App.tsx:101-103 | after two accepted submissions the first timer fires: the second submission's acknowledgement is gone although its own timer is still pending |

## Left out

- Markup, styling, the `SectionTitle` and `ProjectCard` components and the footer's current year: they are presentation only.
- The `projectsData` and `navLinks` literals: no logic reads them beyond rendering. `skillsData` is used as a concrete input.
- `console.log` on submission: it has no effect the page depends on. The `alert` call is the `alerted` result of `HandleSubmit`.
- Wall-clock time and the event loop: a timer is an entry in `pendingTimers`, and the environment fires the oldest by calling `TimerFire`. The 5000 ms delay itself is not modelled. The model relies only on the fact that equal delays fire in scheduling order.
- The browser's own `required` and `type="email"` checks: the browser applies them before the submit handler runs. The only check in the code is the truthiness test.
- React's batching and re-rendering: handlers are treated as sequential updates of the current state. A handler that reads a value captured by an earlier render is not modelled.
- `[name]: value` with a control name other than `name`, `email` or `message`: the page has only these three controls, so `Field` has three values.
- `Object.entries` ordering in general: integer-like keys would come first in JavaScript. The four category names are not integer-like, so insertion order holds, and the model keeps it as the explicit list `order`.
