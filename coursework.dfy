/** The records shared by the assignment board and `gradeAssignment`: an
    assignment with its grading criteria, and a student's submission. */
module Coursework {

  datatype Criterion = Criterion(name: string, points: nat)

  /** One entry of `ASSIGNMENTS`, without its display-only fields. */
  datatype Assignment = Assignment(
    id: string,
    number: nat,
    title: string,
    points: nat,
    requirements: seq<string>,
    gradingCriteria: seq<Criterion>)

  /** The fields of the submission form. */
  datatype FormData = FormData(
    studentName: string,
    studentEmail: string,
    workflowJSON: string,
    description: string,
    liveURL: string,
    screenshots: string)

  /** A stored submission: the form data tagged with its assignment. */
  datatype Submission = Submission(data: FormData, assignmentId: string)

  /** The points of the criteria, added up. */
  function CriteriaTotal(cs: seq<Criterion>): nat
  {
    if cs == [] then 0 else cs[0].points + CriteriaTotal(cs[1..])
  }
}
