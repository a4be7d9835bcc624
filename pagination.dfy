// `CourseService.get_courses` (backend/services/course_service.py): one page of
// the courses table plus the numbers a client needs to page through it. The
// table is a sequence in scan order; the two queries run against the same state.

module Pagination {
  import opened Values

  /** A course row; only its identity matters here. */
  datatype Course = Course(id: int, name: string, description: string)

  /** The dictionary `get_courses` returns. */
  datatype Page = Page(items: seq<Course>, total: nat, page: int, pageSize: int, pages: int)

  /** Both failures are re-raised as `ValueError`: PostgreSQL refuses a negative
      OFFSET or LIMIT, and `skip // 0` raises ZeroDivisionError. */
  datatype PageError = QueryFailed | DivisionByZero

  /** `OFFSET skip LIMIT limit` over the table. */
  function Window(courses: seq<Course>, skip: nat, limit: nat): (items: seq<Course>)
    ensures |items| == if skip >= |courses| then 0 else Min(limit, |courses| - skip)
    ensures forall i :: 0 <= i < |items| ==> items[i] == courses[skip + i]
  {
    if skip >= |courses| then [] else courses[skip..skip + Min(limit, |courses| - skip)]
  }

  /** `get_courses(skip, limit)`. Once the queries succeed, numerators are
      non-negative and the divisor positive, so Dafny's `/` is Python's `//`.
      The call fails exactly for a negative offset or a non-positive limit; a zero
      limit with a valid offset is the division by zero. */
  function GetCourses(courses: seq<Course>, skip: int, limit: int): (r: Result<Page, PageError>)
    ensures r.Err? <==> skip < 0 || limit <= 0
    ensures skip < 0 || limit < 0 ==> r == Err(QueryFailed)
    ensures skip >= 0 && limit == 0 ==> r == Err(DivisionByZero)
  {
    if skip < 0 || limit < 0 then Err(QueryFailed)
    else if limit == 0 then Err(DivisionByZero)
    else
      var total := |courses|;
      Ok(Page(Window(courses, skip, limit), total, skip / limit + 1, limit, (total + limit - 1) / limit))
  }

  /** `pages` is the ceiling of total / limit: the smallest number of pages of
      `limit` courses that holds every course. */
  lemma PagesIsCeiling(courses: seq<Course>, skip: int, limit: int)
    requires GetCourses(courses, skip, limit).Ok?
    ensures var p := GetCourses(courses, skip, limit).value;
            && (p.total == 0 ==> p.pages == 0)
            && (p.total > 0 ==> (p.pages - 1) * limit < p.total <= p.pages * limit)
  {
    var p := GetCourses(courses, skip, limit).value;
    var q := (p.total + limit - 1) / limit;
    var r := (p.total + limit - 1) % limit;
    assert p.total + limit - 1 == q * limit + r && 0 <= r < limit;
  }

  /** The page number is at least 1 and is the page that holds course `skip`;
      `page_size` echoes the limit and `total` counts the whole table. */
  lemma PageNumber(courses: seq<Course>, skip: int, limit: int)
    requires GetCourses(courses, skip, limit).Ok?
    ensures var p := GetCourses(courses, skip, limit).value;
            && p.page >= 1
            && (p.page - 1) * limit <= skip < p.page * limit
            && p.pageSize == limit
            && p.total == |courses|
  {
    var q := skip / limit;
    assert skip == q * limit + skip % limit;
  }

  /** `items` are the courses from offset `skip` on, at most `limit` of them, and
      exactly `limit` when the table reaches that far. */
  lemma ItemsAreWindow(courses: seq<Course>, skip: int, limit: int)
    requires GetCourses(courses, skip, limit).Ok?
    ensures var p := GetCourses(courses, skip, limit).value;
            && |p.items| <= limit
            && (skip + limit <= |courses| ==> |p.items| == limit)
            && p.items <= courses[Min(skip, |courses|)..]
  {
  }

  /** Pages 1 to `pages` are the non-empty ones: asking for page p (skip = (p-1)*limit)
      returns courses exactly when p <= pages. */
  lemma PagesAreNonEmpty(courses: seq<Course>, limit: int, p: int)
    requires limit > 0 && p >= 1
    ensures var r := GetCourses(courses, (p - 1) * limit, limit);
            r.Ok? && (r.value.items != [] <==> p <= r.value.pages)
  {
    var skip := (p - 1) * limit;
    MulMonotonic(0, p - 1, limit);
    var r := GetCourses(courses, skip, limit);
    PagesIsCeiling(courses, skip, limit);
    var pages := r.value.pages;
    assert r.value.items != [] <==> skip < |courses|;
    if p <= pages {
      MulMonotonic(p - 1, pages - 1, limit);
    } else {
      MulMonotonic(pages, p - 1, limit);
    }
  }

  lemma MulMonotonic(a: int, b: int, c: int)
    requires a <= b && c >= 0
    ensures a * c <= b * c
  {
    assert b * c - a * c == (b - a) * c;
  }
}
